# Project tracker: a verified model of its bookkeeping

The tracker keeps projects, tasks and team members in a document store. Each
task belongs to one project and may be assigned to one member. A project's
`progress` is derived from the share of its tasks that are complete. Members
get a workload band from the number of tasks assigned to them.

This Dafny project models the logic that keeps those derived numbers
consistent with the task set. That logic appears twice. The server
controllers recompute it on every task change. The client pages compute it
again to show it optimistically and write it back. The model covers both,
and proves the properties each side promises.

| file | module | what it models |
|---|---|---|
| `shared.dfy` | `Shared` | optional values, a JSON field that may be absent or `null`, the status enum, JS truthiness of strings, and `String.prototype.trim` over the ECMAScript white-space set |
| `rounding.dfy` | `Rounding` | `Math.round(c / n * 100)` in exact integers: (200·c + n) div (2·n); when it reaches 100 and when it is 0 |
| `models.dfy` | `Models` | the Project and Task records and what saving them accepts: required trimmed names, the status enum, `progress` in [0, 100], and the defaults |
| `store.dfy` | `Store` | the store as a class with one map per collection and an id counter, plus the recompute step as a function of the task map |
| `task_controller.dfy` | `TaskController` | `createTask`, `updateTask`, `deleteTask` and `recalculateProjectProgress` |
| `project_controller.dfy` | `ProjectController` | project listing, reading, creating, partial update, cascading delete, and the task listing of a project |
| `team_controller.dfy` | `TeamController` | the member listing with task counts, workload bands and percentages; member creation; member deletion, which clears assignments first |
| `client_types.dfy` | `ClientTypes` | the records the pages hold, and the raw task shape the server's listing sends |
| `project_detail.dfy` | `ProjectDetail` | the project page: normalising tasks; the optimistic lists of the toggle, delete and assign handlers; the derived progress and status; the writes the handlers send |
| `dashboard.dfy` | `Dashboard` | the dashboard: the per-project task dictionary and completed count, the three stats, `formatValue`, and the avatar choice |
| `signup.dfy` | `Signup` | the checks of the sign-up form before it calls `register` |

Record ids are natural numbers drawn from one counter. A record created later
therefore has a larger id. "Newest first" (`sort({ createdAt: -1 })`) is
modelled as descending id order. The natural order of `find()` is modelled as
ascending id order.

Each controller is a method over the store whose `modifies` clause names the
collections it writes. Its `ensures` gives the new collections as a pure
function of the old ones: `Recalculated`, `WithoutProject` or `Unassigned`.
The lemmas state what those functions promise:
- no orphan task after a cascade;
- no dangling assignee after a member is deleted;
- other projects are untouched;
- the recompute step is idempotent.

Each page is a class whose fields are the page state. Every service write the
page issues is appended to a `sent` list, so a handler's contract states which
writes it sends, in order.

Where the code departs from what one would expect, the model follows the
code:
- `createTask` does not check that the named project exists. A task for a
  missing project is saved, and the recompute step then updates nothing.
- Progress 100 does not mean "every task complete". With 200 or more tasks,
  199 of 200 rounds to 100. `Rounding.ProgressFullIff` states exactly when
  progress is 100. `Rounding.ProgressFullIffAllDone` proves the equivalence
  for fewer than 200 tasks.
- The team-member schema is not part of this model. Creating a member is
  modelled as requiring a truthy name, which is stored as given.

## Model

| member | source | states |
|---|---|---|
| Shared.TrimStart | backend/models/Task.js:7 | the result is a suffix of the input and does not start with white space |
| Shared.TrimStartDropsWhitespace | backend/models/Task.js:7 | every character the leading trim drops is white space |
| Shared.TrimEnd | backend/models/Task.js:7 | the result is a prefix of the input and does not end with white space |
| Shared.TrimEndDropsWhitespace | backend/models/Task.js:7 | every character the trailing trim drops is white space |
| Shared.Trim | backend/models/Project.js:7 | the trimmed name is a slice of the input that neither starts nor ends with white space |
| Shared.TrimEmptyIff | backend/models/Project.js:4-8 | a name trims to empty, and so fails the required check, exactly when it is all white space |
| Shared.TrimIdempotent | backend/models/Task.js:7 | trimming a stored (already trimmed) name again changes nothing |
| Rounding.RoundedPercent | backend/controllers/taskController.js:76 | `Math.round(c / n * 100)` is the unique p with 2n·p ≤ 200c + n < 2n·(p + 1), so halves round up |
| Rounding.Progress | backend/controllers/taskController.js:70-78 | progress is at most 100, 0 for a project without tasks, and otherwise the half-up rounding of 100·completed/total |
| Rounding.ProgressUnique | backend/controllers/taskController.js:76 | any p within the rounding bounds is the progress, so the formula is the round-half-up value |
| Rounding.ProgressFullIff | backend/controllers/taskController.js:75-78 | progress is 100 exactly when 200·(n − c) ≤ n |
| Rounding.ProgressFullIffAllDone | backend/controllers/taskController.js:75-78 | below 200 tasks, progress is 100 exactly when every task is complete |
| Rounding.ProgressZeroIff | backend/controllers/taskController.js:75-78 | progress is 0 exactly when 200·c < n |
| Rounding.ProgressMonotone | backend/controllers/taskController.js:76 | completing more tasks never lowers progress |
| Rounding.ProgressExamples | backend/controllers/taskController.js:76 | 1/3 → 33, 2/3 → 67, 1/2 → 50, 199/200 → 100, 1/201 → 0 |
| Models.ParseStatus | backend/models/Project.js:9-13 | only 'In Progress' and 'Completed' are accepted, each as its own status; any other string is rejected |
| Models.StatusName | backend/models/Project.js:11 | the stored text of each enum value; only Completed is stored as 'Completed', and no name is empty |
| Models.ParseStatusName | backend/models/Project.js:11 | every status reads back from its stored name |
| Models.ValidNameIsTrimmed | backend/models/Task.js:4-8 | a valid stored name equals its own trim |
| Models.NewProject | backend/models/Project.js:3-20 | a save succeeds exactly when the name trims to non-empty, the status (if given) is in the enum, and the progress (if given) is in [0, 100]; the stored record has the trimmed name, status defaulting to 'In Progress' and progress defaulting to 0; a failure is a validation error |
| Models.NewTask | backend/models/Task.js:3-23 | a save succeeds exactly when the name trims to non-empty and a projectId is given; the stored task has the trimmed name, isComplete defaulting to false, the given projectId, and an assignee exactly when one is given |
| Models.StoredNameIsTrimmed | backend/models/Task.js:7 | a name padded with white space on both sides saves as the same name as the bare one |
| Store.Database.constructor | backend/models/Project.js:3-20 | the store starts with no records and a valid state |
| Store.Database.AllocateId | backend/models/Task.js:24 | a fresh id, unused in every collection and larger than every earlier one; validity is kept |
| Store.TasksOf | backend/controllers/taskController.js:68 | the defining expression of `Task.find({ projectId })`: stored task ids, each naming the project |
| Store.CompletedOf | backend/controllers/taskController.js:75 | the completed tasks of a project are among its tasks, so there are no more of them |
| Store.ProgressOf | backend/controllers/taskController.js:67-79 | the progress written for a project is at most 100, and 0 when it has no tasks |
| Store.Recalculated | backend/controllers/taskController.js:67-79 | recompute rewrites only the target project's progress; every other project and every other field stays; a missing project is left missing |
| Store.AssignedTo | backend/controllers/teamController.js:12 | the defining expression of `countDocuments({ assignedTo })`: stored task ids, each assigned to the member |
| Store.RecalculatedValid | backend/controllers/taskController.js:78 | recompute keeps every stored project valid (progress stays in [0, 100]) |
| Store.RecalculatedKeepsNameAndStatus | backend/controllers/taskController.js:71 | recompute never changes name or status, so 'Completed' with 0% can result |
| Store.RecalculatedIdempotent | backend/controllers/taskController.js:67-79 | recomputing twice with no task change gives what recomputing once gives |
| Store.ProgressOfMeaning | backend/controllers/taskController.js:75-78 | for a project with tasks, the written progress is the rounded share of complete tasks |
| Store.InsertIncomplete | backend/controllers/taskController.js:7-15 | adding an incomplete task adds exactly that id to the project's tasks and keeps its completed count |
| Store.OtherProjectUnaffected | backend/controllers/taskController.js:38 | a task change in one project leaves another project's tasks, completed tasks and progress unchanged |
| Store.NewestFirst | backend/controllers/projectController.js:7 | the ids of a set, each once, in strictly descending (newest-first) order |
| Store.OldestFirst | backend/controllers/teamController.js:7 | the ids of a set, each once, in strictly ascending (creation) order |
| TaskController.ApplyTaskPatch | backend/controllers/taskController.js:31-35 | the name changes only when the supplied name is truthy (and then to its trim); isComplete and assignedTo change whenever present, including false and null (a null completion flag is stored as not complete); the projectId never changes; the save fails exactly when a truthy name trims to empty |
| TaskController.EmptyPatchKeepsTask | backend/controllers/taskController.js:31-33 | an update supplying nothing, or only an empty name, leaves the task as it was |
| TaskController.ApplyTaskPatchIdempotent | backend/controllers/taskController.js:31-35 | applying the same update twice gives the same task as applying it once |
| TaskController.RecalculateProjectProgress | backend/controllers/taskController.js:67-79 | the projects become `Recalculated` of the old projects for the current tasks; validity is kept |
| TaskController.CreateTask | backend/controllers/taskController.js:5-21 | fails (changing nothing) exactly when the name is missing or blank or no projectId is given; otherwise stores under the next id from the counter an incomplete task with the trimmed name, the projectId and the assignee (null for a falsy one), then recomputes that project |
| TaskController.UpdateTask | backend/controllers/taskController.js:24-44 | NotFound for an unknown id, changing nothing; otherwise the result is `ApplyTaskPatch` of the stored task; a failed save changes nothing; a successful one replaces only that task and recomputes its project; members and the id counter are never touched |
| TaskController.DeleteTask | backend/controllers/taskController.js:47-64 | NotFound for an unknown id, changing nothing; otherwise removes exactly that task and recomputes the project it belonged to, read before deletion; members and the id counter are never touched |
| TaskController.CreateLowersOrKeepsProgress | backend/controllers/taskController.js:7-15 | adding an incomplete task to a project with tasks never raises its progress |
| TaskController.ProgressShrinks | backend/controllers/taskController.js:76 | one more task with the same number complete never raises the rounded share |
| ProjectController.ApplyProjectPatch | backend/controllers/projectController.js:50-54 | name and status change only when the supplied value is truthy; progress changes whenever present, 0 included; the save succeeds exactly when a truthy name trims to non-empty, a truthy status is in the enum and a present progress is in [0, 100] |
| ProjectController.AnyStatusProgressAccepted | backend/controllers/projectController.js:50-54 | any status together with any in-range progress is accepted, whether or not they agree |
| ProjectController.EmptyStringsChangeNothing | backend/controllers/projectController.js:50-51 | an update with empty name and status leaves the project as it was |
| ProjectController.WithoutProject | backend/controllers/projectController.js:70 | the cascade removes exactly the tasks of the project, keeps every other task as it was, and leaves no task of that project |
| ProjectController.CascadeKeepsOtherProjects | backend/controllers/projectController.js:70 | the cascade leaves another project's tasks, completed tasks and progress unchanged |
| ProjectController.GetAllProjects | backend/controllers/projectController.js:5-12 | every stored project exactly once, with its record, newest first |
| ProjectController.Entries | backend/controllers/projectController.js:8 | the records of the listed ids, in the listed order |
| ProjectController.GetProjectById | backend/controllers/projectController.js:15-25 | the stored project, or NotFound exactly when the id is unknown |
| ProjectController.CreatedProject | backend/controllers/projectController.js:29-33 | the record is accepted exactly when the trimmed name is non-empty, a truthy status is one of the enum values and the progress lies in [0, 100]; a falsy status becomes 'In Progress' and a missing progress 0 |
| ProjectController.CreateProject | backend/controllers/projectController.js:28-40 | a rejected body changes nothing and reports a validation failure; an accepted one is stored under a fresh id, every other project untouched, and is returned |
| ProjectController.CreateDefaults | backend/controllers/projectController.js:31-33 | without status and progress, a project is created 'In Progress' at 0% |
| ProjectController.UpdateProject | backend/controllers/projectController.js:43-59 | NotFound for an unknown id; otherwise the result is `ApplyProjectPatch` of the stored project; only a successful save replaces that one project |
| ProjectController.DeleteProject | backend/controllers/projectController.js:62-77 | NotFound for an unknown id, changing nothing; otherwise the project's tasks go (`WithoutProject`), then the project; members are untouched |
| ProjectController.GetProjectTasks | backend/controllers/projectController.js:80-89 | exactly the tasks with that projectId, each once with its record, newest first |
| TeamController.CapacityLevel | backend/controllers/teamController.js:14-17 | red exactly from 7 tasks, orange exactly for 4 to 6, green exactly below 4 |
| TeamController.LevelMonotone | backend/controllers/teamController.js:15-17 | more tasks never move a member to a lighter band |
| TeamController.CapacityPercentage | backend/controllers/teamController.js:24 | 10 per task, capped at 100, so it is in [0, 100] and 100 for every count of 10 or more |
| TeamController.PercentageMonotone | backend/controllers/teamController.js:24 | the percentage never falls as the count grows |
| TeamController.CapacityExamples | backend/controllers/teamController.js:14-24 | 3 → green 30%, 4 → orange 40%, 7 → red 70%, 15 → red 100% |
| TeamController.Classify | backend/controllers/teamController.js:19-25 | a listing entry carries the member's id, name and task count, `CapacityLevel` and `CapacityPercentage` of that count; the percentage is at most 100 and the band is red from 7, orange from 4 |
| TeamController.GetAllTeamMembers | backend/controllers/teamController.js:5-33 | one entry per member, in creation order; each carries the member's classification for the number of tasks assigned to it, complete or not |
| TeamController.CreateTeamMember | backend/controllers/teamController.js:36-46 | fails, changing no member, exactly when the name is not truthy; otherwise stores the member under the next id from the counter, so a member created later has a larger id |
| TeamController.Unassigned | backend/controllers/teamController.js:57 | every task is kept; only the member's tasks lose their assignee; no task is assigned to the member afterwards |
| TeamController.UnassignedKeepsOthers | backend/controllers/teamController.js:57 | other members keep their tasks, and every project keeps its tasks, completed tasks and progress |
| TeamController.DeleteTeamMember | backend/controllers/teamController.js:49-64 | NotFound for an unknown id, changing nothing; otherwise tasks become `Unassigned` for the member and the member is removed; projects are untouched |
| ClientTypes.CompletedCount | frontend/src/pages/ProjectDetail.tsx:122-124 | the number of complete tasks is at most the list's length |
| ProjectDetail.NormalizeRef | frontend/src/pages/ProjectDetail.tsx:25-28 | an object becomes its `_id`; a string is kept as it is, the empty one included; a missing value or null becomes null |
| ProjectDetail.NormalizeTasks | frontend/src/pages/ProjectDetail.tsx:22-29 | same length and order; every field except assignedTo is kept; assignedTo is normalised |
| ProjectDetail.NormalizeAlreadyNormal | frontend/src/pages/ProjectDetail.tsx:22-29 | normalising tasks already in page shape gives them back unchanged |
| ProjectDetail.FindTask | frontend/src/pages/ProjectDetail.tsx:98 | the first task with the id, or none exactly when no task has it |
| ProjectDetail.Toggled | frontend/src/pages/ProjectDetail.tsx:106-114 | only tasks with the toggled id change; they take the new completion; completing clears the assignee and reopening keeps it |
| ProjectDetail.ToggleCount | frontend/src/pages/ProjectDetail.tsx:106-124 | completing adds exactly the open tasks with that id to the complete count; reopening removes exactly the complete ones |
| ProjectDetail.TogglePatch | frontend/src/pages/ProjectDetail.tsx:98-103 | the write carries the new completion, and `assignedTo: null` exactly when completing a task found with a truthy assignee |
| ProjectDetail.DerivedProgress | frontend/src/pages/ProjectDetail.tsx:121-126 | the derived progress is at most 100, 0 for an empty list, and otherwise the half-up rounding of 100·complete/all |
| ProjectDetail.DerivedStatus | frontend/src/pages/ProjectDetail.tsx:129 | the status is Completed exactly when the progress is 100 |
| ProjectDetail.DerivedStatusMeaning | frontend/src/pages/ProjectDetail.tsx:121-129 | below 200 tasks, the derived status is Completed exactly when the list is non-empty and every task in it is complete |
| ProjectDetail.ProjectWrite | frontend/src/pages/ProjectDetail.tsx:132-140 | a project write is sent exactly when a project is loaded and the derived progress or status differs; it carries both |
| ProjectDetail.ProjectWriteSettles | frontend/src/pages/ProjectDetail.tsx:132-140 | once the project holds what a write set, the same list asks for no further write |
| ProjectDetail.CreateProjectWrite | frontend/src/pages/ProjectDetail.tsx:73-86 | after a create, a write is sent exactly when the loaded project is Completed; it carries 'In Progress' and the progress counting one more open task |
| ProjectDetail.Remaining | frontend/src/pages/ProjectDetail.tsx:164 | no task with the deleted id is left, and the list does not grow |
| ProjectDetail.RemainingCounts | frontend/src/pages/ProjectDetail.tsx:164 | the tasks with the deleted id are gone and every other task keeps its number of occurrences |
| ProjectDetail.RemainingKeepsOrder | frontend/src/pages/ProjectDetail.tsx:164 | tasks that stay keep their relative order |
| ProjectDetail.Reassigned | frontend/src/pages/ProjectDetail.tsx:199-201 | only the target task's assignee changes; every other task and field is kept |
| ProjectDetail.ReassignKeepsProgress | frontend/src/pages/ProjectDetail.tsx:193-220 | assigning never changes the complete count or the derived progress, which is why no project write is sent |
| ProjectDetail.ProjectDetailPage.constructor | frontend/src/pages/ProjectDetail.tsx:10-19 | the page starts with no project, no tasks, no error, an empty form and nothing sent |
| ProjectDetail.ProjectDetailPage.FetchProjectData | frontend/src/pages/ProjectDetail.tsx:37-57 | without a route id nothing changes; a load shows the project and its normalised tasks and clears the error; a failed load only sets the load error |
| ProjectDetail.ProjectDetailPage.HandleCreateTask | frontend/src/pages/ProjectDetail.tsx:59-93 | a blank name does nothing; otherwise the create is sent; on failure only the error is set; on success the form is reset and the project write is sent only if the project was Completed |
| ProjectDetail.ProjectDetailPage.HandleToggleTask | frontend/src/pages/ProjectDetail.tsx:95-155 | the optimistic list is shown and the task write sent; on failure the error is set; otherwise a project write is sent when the derived values changed, and the list is replaced by the refreshed one; the page's project is never refreshed (see Findings) |
| ProjectDetail.ProjectDetailPage.HandleToggleTaskSynced | frontend/src/pages/ProjectDetail.tsx:95-155 | the toggle handler as evidently intended: the same writes, and afterwards the page's project is the loaded one with only its progress and status replaced by those derived from the optimistic list, so that list asks for no further write |
| ProjectDetail.StaleToggleExample | frontend/src/pages/ProjectDetail.tsx:132-140 | completing the only task of a 0% project sends 100% and 'Completed'; reopening it against the unchanged project sends nothing |
| ProjectDetail.SyncedToggleExample | frontend/src/pages/ProjectDetail.tsx:132-140 | with the project kept in step, reopening the task sends 0% and 'In Progress' |
| ProjectDetail.ProjectDetailPage.HandleDeleteTask | frontend/src/pages/ProjectDetail.tsx:157-191 | unconfirmed does nothing; otherwise the delete is sent; on failure the error is set; on success a project write is sent when the values derived from the remaining list differ |
| ProjectDetail.ProjectDetailPage.HandleAssignTask | frontend/src/pages/ProjectDetail.tsx:193-220 | the write carries only the assignee; on failure the optimistic list stays with the error set; otherwise the list is replaced by the refreshed one |
| Dashboard.Values | frontend/src/pages/Dashboard.tsx:80 | the value lists of the dictionary, in key order |
| Dashboard.KeyIndex | frontend/src/pages/Dashboard.tsx:138 | the position of the first entry for a key |
| Dashboard.Lookup | frontend/src/pages/Dashboard.tsx:138 | a key's list when the key is present, none exactly when it is absent |
| Dashboard.Put | frontend/src/pages/Dashboard.tsx:60 | writing a key sets its list, keeps every other key's list, overwrites in place, and appends a new key at the end |
| Dashboard.Build | frontend/src/pages/Dashboard.tsx:59-62 | the dictionary the `forEach` writes: each key held once, as in a JS object, and no more entries than results |
| Dashboard.BuildLookup | frontend/src/pages/Dashboard.tsx:56-62 | after writing every result, each key holds the last list written for it |
| Dashboard.BuildDistinct | frontend/src/pages/Dashboard.tsx:56-62 | with distinct project ids the dictionary is the results themselves, in order |
| ClientTypes.DoneCount | frontend/src/pages/Dashboard.tsx:61 | the complete tasks of a list are at most its length |
| ProjectDetail.NormalizedDoneCount | frontend/src/pages/ProjectDetail.tsx:22-29 | normalising the task listing keeps every completion flag, so the page and the dashboard count the same complete tasks |
| Dashboard.TotalTasks | frontend/src/pages/Dashboard.tsx:80-83 | the `reduce` of the list lengths; never below the completed total over the same lists |
| Dashboard.Flatten | frontend/src/pages/Dashboard.tsx:90-91 | the flattened list has as many tasks as the lists together |
| Dashboard.FlattenMembers | frontend/src/pages/Dashboard.tsx:90-91 | a task is in the flattened list exactly when it is in one of the lists |
| Dashboard.DoneCountAppend | frontend/src/pages/Dashboard.tsx:61 | the complete count of two lists together is the sum of their counts |
| Dashboard.DoneTotalFlatten | frontend/src/pages/Dashboard.tsx:56-62 | the per-list completed total is the completed count of all tasks together, and never exceeds their number |
| Dashboard.CollectTasks | frontend/src/pages/Dashboard.tsx:56-62 | the loop's dictionary is `Build` of the results, each key holding its last list, and its count is the total of complete tasks over all results |
| Dashboard.CollectedCountMatches | frontend/src/pages/Dashboard.tsx:56-62 | with distinct project ids, the count is the number of complete tasks the dictionary holds, and at most its total |
| Dashboard.Results | frontend/src/pages/Dashboard.tsx:41-53 | one result per project, with its id and its tasks, or no tasks where that fetch failed |
| Dashboard.ActiveCount | frontend/src/pages/Dashboard.tsx:76-78 | at most the number of projects; 0 exactly when none is 'In Progress'; all of them exactly when every one is |
| Dashboard.DashboardAssignee | frontend/src/pages/Dashboard.tsx:94-99 | a string is kept; an object gives its truthy `_id`, else its truthy `id`, else nothing; anything else gives nothing |
| Dashboard.AssigneeAgreesWithPage | frontend/src/pages/Dashboard.tsx:94-99 | the stats read an assignee as the project page does, except for an object without a truthy `_id` |
| Dashboard.AssigneeCount | frontend/src/pages/Dashboard.tsx:101-103 | a member's tally is at most the number of tasks, and the empty id is never counted |
| Dashboard.AssignedTotal | frontend/src/pages/Dashboard.tsx:89-104 | the tasks with an assignee are at most all tasks |
| Dashboard.MapSumAt | frontend/src/pages/Dashboard.tsx:89 | a dictionary's sum is any one entry plus the sum of the rest |
| Dashboard.MapSumUpdate | frontend/src/pages/Dashboard.tsx:102 | rewriting one entry changes the sum by exactly the difference |
| Dashboard.TallyStep | frontend/src/pages/Dashboard.tsx:91-103 | one more task adds one to its assignee's count and to the total, and nothing to any other count |
| Dashboard.TallyAdd | frontend/src/pages/Dashboard.tsx:101-103 | the loop body turns a tally of the first tasks into a tally of one more task |
| Dashboard.AssignedCounts | frontend/src/pages/Dashboard.tsx:89-104 | an entry exists exactly for each id with a task; it holds that id's task count; the entries add up to the number of tasks with an assignee |
| Dashboard.IdleCount | frontend/src/pages/Dashboard.tsx:109-111 | the idle members are at most all members, and all of them when no task is assigned |
| Dashboard.NoAssigneeNoCount | frontend/src/pages/Dashboard.tsx:109-111 | when no task has an assignee, no member has a task |
| Dashboard.IdleFrom | frontend/src/pages/Dashboard.tsx:109-111 | the defining expression of the idle filter: at most the number of members, and 0 when every member has a positive entry |
| Dashboard.IdleFromTally | frontend/src/pages/Dashboard.tsx:109-111 | filtering members by the tally gives exactly the members with no task |
| Dashboard.Stats | frontend/src/pages/Dashboard.tsx:75-133 | the active count; tasks to complete never negative, equal to the total minus the completed count whenever that is not negative; idle members are those with no task |
| Dashboard.ToCompleteIsIncomplete | frontend/src/pages/Dashboard.tsx:80-86 | with the count fetched for distinct project ids, the tasks to complete are exactly the incomplete ones |
| Dashboard.Digit | frontend/src/pages/Dashboard.tsx:135 | a decimal digit character whose value is the digit |
| Dashboard.NatToString | frontend/src/pages/Dashboard.tsx:135 | a non-empty string of digits, of length 1 exactly for values below 10 |
| Dashboard.NatToStringValue | frontend/src/pages/Dashboard.tsx:135 | the digits read back as the value |
| Dashboard.LeadingZeroValue | frontend/src/pages/Dashboard.tsx:135 | a leading '0' does not change the value read |
| Dashboard.FormatValue | frontend/src/pages/Dashboard.tsx:135 | at least two characters: the digits, left-padded with '0' only when shorter; longer strings are unchanged; the result still reads as the value |
| Dashboard.TasksFor | frontend/src/pages/Dashboard.tsx:138 | a project's list, or empty when the project has no entry |
| Dashboard.Dedup | frontend/src/pages/Dashboard.tsx:139-141 | the same elements, each once |
| Dashboard.FindMember | frontend/src/pages/Dashboard.tsx:143-146 | the first member with that id, or none exactly when no member has it |
| Dashboard.MatchMembers | frontend/src/pages/Dashboard.tsx:143-147 | each result is a known member whose id was looked up |
| Dashboard.MatchMembersComplete | frontend/src/pages/Dashboard.tsx:143-147 | every looked-up id that names a member is matched |
| Dashboard.MatchMembersDistinct | frontend/src/pages/Dashboard.tsx:139-147 | distinct ids give members with distinct ids |
| Dashboard.Fallback | frontend/src/pages/Dashboard.tsx:153 | the first min(4, number of members) members |
| Dashboard.RawKeys | frontend/src/pages/Dashboard.tsx:139-141 | only non-empty plain strings can match a member id; none of them is empty |
| Dashboard.AvatarsAsWritten | frontend/src/pages/Dashboard.tsx:137-154 | the avatars as written are always known members |
| Dashboard.AvatarsAsWrittenIgnorePopulated | frontend/src/pages/Dashboard.tsx:143-153 | for tasks as the server lists them (populated or null), the avatars as written are always the fallback |
| Dashboard.NoTextNoKeys | frontend/src/pages/Dashboard.tsx:139-141 | without plain-string assignees, nothing is looked up |
| Dashboard.AssigneeList | frontend/src/pages/Dashboard.tsx:139-141 | the ids listed are exactly those with a task |
| Dashboard.ProjectAvatars | frontend/src/pages/Dashboard.tsx:137-154 | the avatars are always known members |
| Dashboard.ProjectAvatarsAssigned | frontend/src/pages/Dashboard.tsx:137-150 | when some member is assigned in the project, the avatars are exactly the assigned members, each once |
| Dashboard.ProjectAvatarsFallback | frontend/src/pages/Dashboard.tsx:149-153 | when no member is assigned, the avatars are the first (up to) four members |
| Dashboard.TextKeysAgree | frontend/src/pages/Dashboard.tsx:139-141 | with plain-string assignees, both readings look up the same ids |
| Dashboard.AvatarsAgreeOnPlainIds | frontend/src/pages/Dashboard.tsx:137-154 | with plain-string assignees, the avatars as written are the intended ones |
| Dashboard.AvatarsPopulatedExample | frontend/src/pages/Dashboard.tsx:137-154 | with five members and a populated assignee 'e', as written shows the first four, as intended only 'e' |
| Dashboard.DashboardPage.constructor | frontend/src/pages/Dashboard.tsx:13-18 | the page starts empty with no error |
| Dashboard.DashboardPage.FetchDashboardData | frontend/src/pages/Dashboard.tsx:27-72 | a failed project load only sets the error; otherwise projects and members (none if that load failed) are shown, the dictionary and count come from `CollectTasks`, and the error is cleared |
| Signup.PasswordError | frontend/src/pages/Signup.tsx:18-26 | no error exactly when the passwords match and have at least 6 characters; a length error only for matching passwords |
| Signup.MismatchFirst | frontend/src/pages/Signup.tsx:18-21 | a mismatch is reported even when the password is also too short |
| Signup.FailureMessage | frontend/src/pages/Signup.tsx:33 | the thrown message when truthy, else 'Registration failed'; never empty |
| Signup.SubmitError | frontend/src/pages/Signup.tsx:14-37 | the first failing check's message; when both pass, empty exactly when registration succeeded |
| Signup.SignupForm.constructor | frontend/src/pages/Signup.tsx:6-11 | the form starts empty, with no error and not loading |
| Signup.SignupForm.HandleSubmit | frontend/src/pages/Signup.tsx:14-37 | the error is the submit error; a failing check returns with loading untouched and no call; otherwise `register` is called once with the entered name, email and password, and loading ends false |

## Left out

- HTTP, Express routing, status codes and the axios service wrappers. A request's outcome is a `Result` with `NotFound` (404) or `ValidationFailed` (400).
- The nested `PUT`/`DELETE /projects/:id/tasks/:taskId` routes. They pass the project id to handlers that read it as a task id. The task handlers are modelled with the plain `/tasks/:id` meaning.
- Mongoose and MongoDB mechanics: ObjectId generation and cast errors, `populate`, and real timestamps. Ids come from a counter, and the listing order follows id order.
- `findByIdAndUpdate` on a missing project. It updates nothing, and so does the model.
- A 500 response from a failing query. Queries are modelled as always answering.
- JSON `null` for a name, status or progress in a request body. Such fields are either absent or carry a value. A `null` assignee and a `null` completion flag are modelled; the stored `null` flag is modelled as `false`, which is how every reader of the flag treats it.
- Values of the wrong JSON type. A non-boolean `isComplete` (Mongoose casts 'true', 'yes', 1 and the like, and rejects other values) is not modelled; the flag is a boolean.
- Fractional numbers. The schema's `progress` is a Number and accepts values such as 50.5 in create and update bodies; the model's progress is an integer.
- Concurrency, all of it:
  - the `Promise.all` fan-outs;
  - the read-then-write race of the recompute step;
  - a crash between the two steps of a cascading delete.
  
  Every controller and handler is one sequential step.
- Floating point. `Math.round(c / n * 100)` and `taskCount / 10 * 100` are computed exactly in integers. The doubles can differ by a rounding artefact, as in 3 / 10 * 100.
- String length. `password.length` counts UTF-16 code units, while the model counts characters. They differ only outside the Basic Multilingual Plane.
- The team-member schema is not part of this model. Its validation is taken to be a required, truthy name.
- Authentication and `register` itself. Its result is a parameter of `Signup.SignupForm.HandleSubmit`.
- Rendering, React effects and the `loading` flags of the project and dashboard pages.
- The dashboard's new-project dialog, the page's list of team members, and navigation.
- ProjectDetail.ProjectDetailPage.HandleToggleTask: assumes the project write and the refresh both succeed. In the source, a failure of either is reported like a failed task write.
- ProjectDetail.ProjectDetailPage.HandleCreateTask: assumes the project write succeeds. The reload that follows is `FetchProjectData`, which is modelled on its own and is not awaited in the source.
- ProjectDetail.ProjectDetailPage.HandleDeleteTask: assumes the project write succeeds. The reload that follows is `FetchProjectData`.
- ProjectDetail.ProjectDetailPage.HandleAssignTask: the member list refresh is not modelled. The reload after a failure is `FetchProjectData`.
- Signup.SignupForm.HandleSubmit: does not model that `loading` is true while `register` runs, since only the state after the call is observable here.

## Findings

| source | as written | input that shows it | evidently intended | confidence | as-written member | corrected member |
|---|---|---|---|---|---|---|
| frontend/src/pages/Dashboard.tsx:139-147 | the assignees are collected as `task.assignedTo` values and looked up with `member._id === assigneeId`; the task listing populates `assignedTo` into an object, which never equals an id string, so no member is ever found and every card shows the first four members | five members a–e and one task of the project whose `assignedTo` is the populated member e: the card shows a, b, c, d | read the assignee as the stats do (an object's `_id`, else its `id`), so the card shows the members actually assigned, here e | not executed | Dashboard.AvatarsAsWritten (with Dashboard.AvatarsAsWrittenIgnorePopulated and Dashboard.AvatarsPopulatedExample) | Dashboard.ProjectAvatars (with Dashboard.ProjectAvatarsAssigned and Dashboard.ProjectAvatarsFallback) |
| frontend/src/pages/ProjectDetail.tsx:95-155 | after the task write succeeds, the toggle handler sends the project write and refreshes tasks and members, but never the project, which the create and delete handlers reload through `fetchProjectData`; the next toggle compares against the stale project | one incomplete task in a 0% 'In Progress' project: completing it sends 100% and 'Completed'; reopening it derives 0% and 'In Progress', equal to the stale project, so nothing is sent, and the server's recompute leaves the project 'Completed' at 0% | keep the page's project in step with the write (or reload it as the other handlers do), so reopening sends 0% and 'In Progress' | not executed | ProjectDetail.ProjectDetailPage.HandleToggleTask (with ProjectDetail.StaleToggleExample and Store.RecalculatedKeepsNameAndStatus) | ProjectDetail.ProjectDetailPage.HandleToggleTaskSynced (with ProjectDetail.SyncedToggleExample) |
