/** frontend/src/pages/Dashboard.tsx: the per-project task map and completed
    count filled by `fetchDashboardData`, the three stats, `formatValue` and
    the avatar choice of `getProjectAvatars`. A JS object used as a
    dictionary is an association list: it keeps the order in which keys were
    first written and overwrites the value of a key written again. */
module Dashboard {
  import opened Shared
  import opened ClientTypes

  type TaskMap = seq<(string, seq<ApiTask>)>

  /** `Object.values`: the value lists, in key order. */
  function Values(m: TaskMap): (vs: seq<seq<ApiTask>>)
    ensures |vs| == |m| && forall i :: 0 <= i < |m| ==> vs[i] == m[i].1
  {
    seq(|m|, i requires 0 <= i < |m| => m[i].1)
  }

  predicate DistinctKeys(m: TaskMap)
  {
    forall i, j :: 0 <= i < j < |m| ==> m[i].0 != m[j].0
  }

  predicate HasKey(m: TaskMap, k: string)
  {
    exists i :: 0 <= i < |m| && m[i].0 == k
  }

  /** The position of the first entry for `k`. */
  function KeyIndex(m: TaskMap, k: string): (i: nat)
    requires HasKey(m, k)
    ensures i < |m| && m[i].0 == k
    ensures forall j :: 0 <= j < i ==> m[j].0 != k
  {
    if m[0].0 == k then 0
    else
      assert HasKey(m[1..], k) by {
        var i :| 0 <= i < |m| && m[i].0 == k;
        assert m[1..][i - 1].0 == k;
      }
      1 + KeyIndex(m[1..], k)
  }

  /** `m[k] ?? undefined`. */
  function Lookup(m: TaskMap, k: string): (r: Option<seq<ApiTask>>)
    ensures r.None? <==> !HasKey(m, k)
    ensures r.Some? ==> exists i :: 0 <= i < |m| && m[i] == (k, r.value)
  {
    if HasKey(m, k) then Some(m[KeyIndex(m, k)].1) else None
  }

  /** Rewriting an entry with its own key leaves every other key's entry
      where it was. */
  lemma SameKeysSameIndex(m: TaskMap, r: TaskMap, j: string)
    requires |r| == |m| && forall i :: 0 <= i < |m| ==> r[i].0 == m[i].0
    requires HasKey(m, j)
    ensures HasKey(r, j) && KeyIndex(r, j) == KeyIndex(m, j)
  {
    var i := KeyIndex(m, j);
    assert r[i].0 == j;
    var i' := KeyIndex(r, j);
    assert m[i'].0 == j;
  }

  /** `m[k] = v`: overwrite in place, or append a new key. */
  function Put(m: TaskMap, k: string, v: seq<ApiTask>): (r: TaskMap)
    ensures Lookup(r, k) == Some(v)
    ensures forall j :: j != k ==> Lookup(r, j) == Lookup(m, j)
    ensures !HasKey(m, k) ==> r == m + [(k, v)]
    ensures HasKey(m, k) ==> |r| == |m| && forall i :: 0 <= i < |m| ==> r[i].0 == m[i].0
  {
    if HasKey(m, k) then
      var r := m[KeyIndex(m, k) := (k, v)];
      SameKeysSameIndex(m, r, k);
      forall j | j != k ensures Lookup(r, j) == Lookup(m, j) {
        if HasKey(m, j) {
          SameKeysSameIndex(m, r, j);
        }
      }
      r
    else
      var r := m + [(k, v)];
      assert r[|m|].0 == k;
      assert KeyIndex(r, k) == |m|;
      forall j | j != k ensures Lookup(r, j) == Lookup(m, j) {
        if HasKey(m, j) {
          var i := KeyIndex(m, j);
          assert r[i].0 == j;
          var i' := KeyIndex(r, j);
          assert i' <= i && m[i'].0 == j;
        }
      }
      r
  }

  /** The last list written for `k` in a run of writes, if any. */
  function LastFor(results: TaskMap, k: string): Option<seq<ApiTask>>
  {
    if results == [] then None
    else if results[|results| - 1].0 == k then Some(results[|results| - 1].1)
    else LastFor(results[..|results| - 1], k)
  }

  /** The dictionary after writing every result in order. */
  function Build(results: TaskMap): (m: TaskMap)
    ensures DistinctKeys(m) && |m| <= |results|
  {
    if results == [] then []
    else
      var last := results[|results| - 1];
      Put(Build(results[..|results| - 1]), last.0, last.1)
  }

  /** Every key of the dictionary holds the last list written for it:
      a later result for the same project id overwrites an earlier one. */
  lemma {:induction false} BuildLookup(results: TaskMap)
    ensures forall k :: Lookup(Build(results), k) == LastFor(results, k)
  {
    if results != [] {
      BuildLookup(results[..|results| - 1]);
    }
  }

  /** When the results carry distinct project ids, the dictionary holds them
      exactly, in the same order. */
  lemma {:induction false} BuildDistinct(results: TaskMap)
    requires DistinctKeys(results)
    ensures Build(results) == results
  {
    if results != [] {
      var init := results[..|results| - 1];
      var last := results[|results| - 1];
      assert DistinctKeys(init) by {
        forall i, j | 0 <= i < j < |init| ensures init[i].0 != init[j].0 {
          assert init[i] == results[i] && init[j] == results[j];
        }
      }
      BuildDistinct(init);
      assert !HasKey(init, last.0) by {
        forall i | 0 <= i < |init| ensures init[i].0 != last.0 {
          assert init[i] == results[i];
        }
      }
      assert init + [last] == results;
    }
  }

  /** The complete tasks over several lists. */
  function DoneTotal(vs: seq<seq<ApiTask>>): nat
  {
    if vs == [] then 0 else DoneTotal(vs[..|vs| - 1]) + DoneCount(vs[|vs| - 1])
  }

  /** `reduce((acc, arr) => acc + arr.length, 0)`. */
  function TotalTasks(vs: seq<seq<ApiTask>>): (n: nat)
    ensures n >= DoneTotal(vs)
  {
    if vs == [] then 0 else TotalTasks(vs[..|vs| - 1]) + |vs[|vs| - 1]|
  }

  /** `.flat()`. */
  function Flatten(vs: seq<seq<ApiTask>>): (ts: seq<ApiTask>)
    ensures |ts| == TotalTasks(vs)
  {
    if vs == [] then [] else Flatten(vs[..|vs| - 1]) + vs[|vs| - 1]
  }

  /** A task is in the flattened list exactly when it is in one of the
      lists. */
  lemma {:induction false} FlattenMembers(vs: seq<seq<ApiTask>>)
    ensures forall t :: t in Flatten(vs) <==> exists k :: 0 <= k < |vs| && t in vs[k]
  {
    if vs != [] {
      var init := vs[..|vs| - 1];
      FlattenMembers(init);
      assert Flatten(vs) == Flatten(init) + vs[|vs| - 1];
      forall t ensures t in Flatten(vs) <==> exists k :: 0 <= k < |vs| && t in vs[k] {
        if t in Flatten(vs) && t !in vs[|vs| - 1] {
          var k :| 0 <= k < |init| && t in init[k];
          assert vs[k] == init[k];
        }
        if exists k :: 0 <= k < |vs| && t in vs[k] {
          var k :| 0 <= k < |vs| && t in vs[k];
          if k < |init| {
            assert init[k] == vs[k];
          }
        }
      }
    }
  }

  lemma {:induction false} DoneCountAppend(a: seq<ApiTask>, b: seq<ApiTask>)
    ensures DoneCount(a + b) == DoneCount(a) + DoneCount(b)
    decreases |b|
  {
    if b == [] {
      assert a + b == a;
    } else {
      assert (a + b)[..|a + b| - 1] == a + b[..|b| - 1];
      DoneCountAppend(a, b[..|b| - 1]);
    }
  }

  /** The per-list completed total is the completed count of all tasks
      together, and never exceeds their number. */
  lemma {:induction false} DoneTotalFlatten(vs: seq<seq<ApiTask>>)
    ensures DoneTotal(vs) == DoneCount(Flatten(vs))
    ensures DoneTotal(vs) <= TotalTasks(vs)
  {
    if vs != [] {
      DoneTotalFlatten(vs[..|vs| - 1]);
      DoneCountAppend(Flatten(vs[..|vs| - 1]), vs[|vs| - 1]);
    }
  }

  /** The `forEach` of `fetchDashboardData`: every result is written into
      the dictionary and its complete tasks are added to the count. */
  method CollectTasks(results: TaskMap) returns (taskMap: TaskMap, completedCount: nat)
    ensures taskMap == Build(results)
    ensures forall k :: Lookup(taskMap, k) == LastFor(results, k)
    ensures completedCount == DoneTotal(Values(results))
  {
    taskMap, completedCount := [], 0;
    for i := 0 to |results|
      invariant taskMap == Build(results[..i])
      invariant completedCount == DoneTotal(Values(results[..i]))
    {
      assert results[..i + 1][..i] == results[..i];
      assert Values(results[..i + 1])[..i] == Values(results[..i]);
      taskMap := Put(taskMap, results[i].0, results[i].1);
      completedCount := completedCount + DoneCount(results[i].1);
    }
    assert results[..|results|] == results;
    BuildLookup(results);
  }

  /** With distinct project ids the count is exactly the number of complete
      tasks held in the dictionary, so no more than the tasks it holds. */
  lemma CollectedCountMatches(results: TaskMap)
    requires DistinctKeys(results)
    ensures DoneTotal(Values(results)) == DoneCount(Flatten(Values(Build(results))))
    ensures DoneTotal(Values(results)) <= TotalTasks(Values(Build(results)))
  {
    BuildDistinct(results);
    DoneTotalFlatten(Values(results));
  }

  /** The `{ projectId, tasks }` results of the fetch: one per project, an
      empty list where that project's tasks failed to load. */
  function Results(projects: seq<ClientProject>, fetched: seq<Option<seq<ApiTask>>>): (rs: TaskMap)
    requires |fetched| == |projects|
    ensures |rs| == |projects|
    ensures forall i :: 0 <= i < |rs| ==>
      rs[i].0 == projects[i].id && rs[i].1 == (if fetched[i].Some? then fetched[i].value else [])
  {
    seq(|projects|, i requires 0 <= i < |projects| => (projects[i].id, if fetched[i].Some? then fetched[i].value else []))
  }

  /** The number of projects 'In Progress'. */
  function ActiveCount(projects: seq<ClientProject>): (n: nat)
    ensures n <= |projects|
    ensures n == 0 <==> forall i :: 0 <= i < |projects| ==> projects[i].status != InProgress
    ensures n == |projects| <==> forall i :: 0 <= i < |projects| ==> projects[i].status == InProgress
  {
    if projects == [] then 0
    else
      var init := projects[..|projects| - 1];
      assert forall i :: 0 <= i < |init| ==> init[i] == projects[i];
      ActiveCount(init) + (if projects[|projects| - 1].status == InProgress then 1 else 0)
  }

  /** The assignee as the stats normalise it: a string as it is; an object's
      `_id`, else its `id`, when truthy; otherwise none. */
  function DashboardAssignee(r: RawRef): (a: Option<string>)
    ensures r.Text? ==> a == Some(r.s)
    ensures r.Object? ==> a == if Truthy(r.oid) then r.oid else if Truthy(r.altId) then r.altId else None
    ensures r.Missing? || r.NullRef? ==> a == None
  {
    match r
    case Text(s) => Some(s)
    case Object(oid, altId) => if Truthy(oid) then oid else if Truthy(altId) then altId else None
    case _ => None
  }

  /** The stats and the project page read an assignee alike except for an
      object whose `_id` is missing or empty. */
  lemma AssigneeAgreesWithPage(r: RawRef)
    requires r.Object? ==> Truthy(r.oid)
    ensures DashboardAssignee(r) == (match r
                                     case Missing => None
                                     case NullRef => None
                                     case Text(s) => Some(s)
                                     case Object(oid, _) => oid)
  {
  }

  /** The number of tasks counted against `k`. */
  function AssigneeCount(ts: seq<ApiTask>, k: string): (c: nat)
    ensures c <= |ts|
    ensures k == "" ==> c == 0
  {
    if ts == [] then 0
    else
      var a := DashboardAssignee(ts[|ts| - 1].assignedTo);
      AssigneeCount(ts[..|ts| - 1], k) + (if Truthy(a) && a.value == k then 1 else 0)
  }

  /** The number of tasks with a (truthy) assignee at all. */
  function AssignedTotal(ts: seq<ApiTask>): (c: nat)
    ensures c <= |ts|
  {
    if ts == [] then 0
    else AssignedTotal(ts[..|ts| - 1]) + (if Truthy(DashboardAssignee(ts[|ts| - 1].assignedTo)) then 1 else 0)
  }

  ghost function Pick(m: map<string, nat>): (k: string)
    requires m != map[]
    ensures k in m
  {
    var k :| k in m; k
  }

  /** The sum of a dictionary's counts. */
  ghost function MapSum(m: map<string, nat>): nat
    decreases |m|
  {
    if m == map[] then 0 else m[Pick(m)] + MapSum(m - {Pick(m)})
  }

  lemma {:induction false} MapSumAt(m: map<string, nat>, k: string)
    requires k in m
    ensures MapSum(m) == m[k] + MapSum(m - {k})
    decreases |m|
  {
    var j := Pick(m);
    if j != k {
      MapSumAt(m - {j}, k);
      MapSumAt(m - {k}, j);
      assert m - {j} - {k} == m - {k} - {j};
    }
  }

  lemma MapSumUpdate(m: map<string, nat>, k: string, v: nat)
    ensures MapSum(m[k := v]) + (if k in m then m[k] else 0) == MapSum(m) + v
  {
    MapSumAt(m[k := v], k);
    if k in m {
      MapSumAt(m, k);
      assert m[k := v] - {k} == m - {k};
    } else {
      assert m[k := v] - {k} == m;
    }
  }

  /** One more task adds one to its assignee's tally and to the total, and
      nothing to any other tally. */
  lemma TallyStep(ts: seq<ApiTask>, i: nat)
    requires i < |ts|
    ensures var a := DashboardAssignee(ts[i].assignedTo);
      && (forall k :: AssigneeCount(ts[..i + 1], k) == AssigneeCount(ts[..i], k) + (if Truthy(a) && a.value == k then 1 else 0))
      && AssignedTotal(ts[..i + 1]) == AssignedTotal(ts[..i]) + (if Truthy(a) then 1 else 0)
  {
    assert ts[..i + 1][..i] == ts[..i];
  }

  /** `counts` holds, for exactly the assignees of `ts`, their number of
      tasks, and its entries add up to the assigned tasks. */
  ghost predicate IsTally(counts: map<string, nat>, ts: seq<ApiTask>)
  {
    && (forall k :: k in counts <==> AssigneeCount(ts, k) > 0)
    && (forall k :: k in counts ==> counts[k] == AssigneeCount(ts, k))
    && MapSum(counts) == AssignedTotal(ts)
  }

  /** The loop body of `assignedCounts` extends a tally of the first `i`
      tasks to a tally of the first `i + 1`. */
  lemma TallyAdd(counts: map<string, nat>, ts: seq<ApiTask>, i: nat)
    requires i < |ts| && IsTally(counts, ts[..i])
    ensures var a := DashboardAssignee(ts[i].assignedTo);
      IsTally(if Truthy(a) then counts[a.value := (if a.value in counts then counts[a.value] else 0) + 1] else counts,
              ts[..i + 1])
  {
    TallyStep(ts, i);
    var a := DashboardAssignee(ts[i].assignedTo);
    if Truthy(a) {
      var c := if a.value in counts then counts[a.value] else 0;
      MapSumUpdate(counts, a.value, c + 1);
    }
  }

  /** The `assignedCounts` loop of `stats`: one entry per assignee, holding
      its number of tasks, and the entries add up to the assigned tasks. */
  method AssignedCounts(ts: seq<ApiTask>) returns (counts: map<string, nat>)
    ensures forall k :: k in counts <==> AssigneeCount(ts, k) > 0
    ensures forall k :: k in counts ==> counts[k] == AssigneeCount(ts, k)
    ensures MapSum(counts) == AssignedTotal(ts)
  {
    counts := map[];
    for i := 0 to |ts|
      invariant IsTally(counts, ts[..i])
    {
      TallyAdd(counts, ts, i);
      var assignedId := DashboardAssignee(ts[i].assignedTo);
      if Truthy(assignedId) {
        var c := if assignedId.value in counts then counts[assignedId.value] else 0;
        counts := counts[assignedId.value := c + 1];
      }
    }
    assert ts[..|ts|] == ts;
  }

  /** The number of members with no task counted against them. */
  function IdleCount(members: seq<ClientMember>, ts: seq<ApiTask>): (n: nat)
    ensures n <= |members|
    ensures AssignedTotal(ts) == 0 ==> n == |members|
  {
    if members == [] then 0
    else
      var m := members[|members| - 1];
      if AssignedTotal(ts) == 0 then NoAssigneeNoCount(ts, m.id); IdleCount(members[..|members| - 1], ts) + 1
      else IdleCount(members[..|members| - 1], ts) + (if AssigneeCount(ts, m.id) == 0 then 1 else 0)
  }

  lemma {:induction false} NoAssigneeNoCount(ts: seq<ApiTask>, k: string)
    requires AssignedTotal(ts) == 0
    ensures AssigneeCount(ts, k) == 0
  {
    if ts != [] {
      NoAssigneeNoCount(ts[..|ts| - 1], k);
    }
  }

  /** `teamMembers.filter(m => (assignedCounts[m._id] ?? 0) === 0).length`. */
  function IdleFrom(members: seq<ClientMember>, counts: map<string, nat>): (n: nat)
    ensures n <= |members|
    ensures (forall k :: k in counts ==> counts[k] > 0) && (forall i :: 0 <= i < |members| ==> members[i].id in counts) ==> n == 0
  {
    if members == [] then 0
    else
      var id := members[|members| - 1].id;
      IdleFrom(members[..|members| - 1], counts) + (if id !in counts || counts[id] == 0 then 1 else 0)
  }

  lemma {:induction false} IdleFromTally(members: seq<ClientMember>, ts: seq<ApiTask>, counts: map<string, nat>)
    requires forall k :: k in counts ==> counts[k] == AssigneeCount(ts, k)
    requires forall k :: k !in counts ==> AssigneeCount(ts, k) == 0
    ensures IdleFrom(members, counts) == IdleCount(members, ts)
  {
    if members != [] {
      IdleFromTally(members[..|members| - 1], ts, counts);
      if AssignedTotal(ts) == 0 {
        NoAssigneeNoCount(ts, members[|members| - 1].id);
      }
    }
  }

  /** `stats`: the active projects, the idle members and the tasks still to
      complete (never negative). */
  method Stats(projects: seq<ClientProject>, taskMap: TaskMap, completedTasks: nat, members: seq<ClientMember>)
    returns (active: nat, idle: nat, toComplete: nat)
    ensures active == ActiveCount(projects)
    ensures toComplete + completedTasks >= TotalTasks(Values(taskMap))
    ensures toComplete == 0 || toComplete + completedTasks == TotalTasks(Values(taskMap))
    ensures idle == IdleCount(members, Flatten(Values(taskMap)))
  {
    active := ActiveCount(projects);
    var totalTasks := TotalTasks(Values(taskMap));
    toComplete := if totalTasks >= completedTasks then totalTasks - completedTasks else 0;
    var all := Flatten(Values(taskMap));
    var counts := AssignedCounts(all);
    idle := IdleFrom(members, counts);
    IdleFromTally(members, all, counts);
  }

  /** With the count the fetch produced from distinct project ids, the tasks
      to complete are exactly the incomplete ones. */
  lemma ToCompleteIsIncomplete(results: TaskMap)
    requires DistinctKeys(results)
    ensures var all := Flatten(Values(Build(results)));
      TotalTasks(Values(Build(results))) - DoneTotal(Values(results)) == |all| - DoneCount(all) >= 0
  {
    CollectedCountMatches(results);
  }

  function Digit(d: nat): (c: char)
    requires d < 10
    ensures '0' <= c <= '9' && c as int - '0' as int == d
  {
    (d + '0' as int) as char
  }

  predicate AllDigits(s: string)
  {
    forall i :: 0 <= i < |s| ==> '0' <= s[i] <= '9'
  }

  /** `value.toString()` for a count. */
  function NatToString(n: nat): (s: string)
    ensures 1 <= |s| && AllDigits(s)
    ensures |s| == 1 <==> n < 10
  {
    if n < 10 then [Digit(n)] else NatToString(n / 10) + [Digit(n % 10)]
  }

  /** The number a string of digits denotes. */
  function DecimalValue(s: string): nat
    requires AllDigits(s)
  {
    if s == [] then 0 else DecimalValue(s[..|s| - 1]) * 10 + (s[|s| - 1] as int - '0' as int)
  }

  lemma {:induction false} NatToStringValue(n: nat)
    ensures DecimalValue(NatToString(n)) == n
  {
    if n >= 10 {
      NatToStringValue(n / 10);
      var s := NatToString(n);
      assert s[..|s| - 1] == NatToString(n / 10);
    }
  }

  lemma {:induction false} LeadingZeroValue(s: string)
    requires AllDigits(s)
    ensures AllDigits("0" + s) && DecimalValue("0" + s) == DecimalValue(s)
    decreases |s|
  {
    if s != [] {
      LeadingZeroValue(s[..|s| - 1]);
      assert ("0" + s)[..|s|] == "0" + s[..|s| - 1];
    }
  }

  /** `formatValue`: the decimal digits padded on the left with '0' to at
      least two characters; the digits still read as the value. */
  function FormatValue(n: nat): (r: string)
    ensures |r| >= 2 && AllDigits(r) && DecimalValue(r) == n
    ensures |r| == if n < 10 then 2 else |NatToString(n)|
    ensures r[|r| - |NatToString(n)|..] == NatToString(n)
    ensures forall i :: 0 <= i < |r| - |NatToString(n)| ==> r[i] == '0'
    ensures |NatToString(n)| >= 2 ==> r == NatToString(n)
  {
    var s := NatToString(n);
    NatToStringValue(n);
    if |s| < 2 then
      LeadingZeroValue(s);
      "0" + s
    else s
  }

  /** `tasksByProject[projectId] ?? []`. */
  function TasksFor(taskMap: TaskMap, projectId: string): (ts: seq<ApiTask>)
    ensures HasKey(taskMap, projectId) ==> Some(ts) == Lookup(taskMap, projectId)
    ensures !HasKey(taskMap, projectId) ==> ts == []
  {
    match Lookup(taskMap, projectId)
    case Some(ts) => ts
    case None => []
  }

  /** The distinct elements of a list, in order of first occurrence (what
      `Array.from(new Set(...))` keeps). */
  function Dedup(xs: seq<string>): (r: seq<string>)
    ensures forall x :: x in r <==> x in xs
    ensures forall i, j :: 0 <= i < j < |r| ==> r[i] != r[j]
  {
    if xs == [] then []
    else
      var d := Dedup(xs[..|xs| - 1]);
      assert forall x :: x in xs <==> x in xs[..|xs| - 1] || x == xs[|xs| - 1] by {
        assert xs == xs[..|xs| - 1] + [xs[|xs| - 1]];
      }
      if xs[|xs| - 1] in d then d else d + [xs[|xs| - 1]]
  }

  /** `teamMembers.find(member => member._id === id)`. */
  function FindMember(members: seq<ClientMember>, id: string): (r: Option<ClientMember>)
    ensures r.None? <==> forall k :: 0 <= k < |members| ==> members[k].id != id
    ensures r.Some? ==> r.value in members && r.value.id == id
    ensures r.Some? ==> exists k :: 0 <= k < |members| && members[k] == r.value &&
                          forall j :: 0 <= j < k ==> members[j].id != id
  {
    if members == [] then None
    else if members[0].id == id then Some(members[0])
    else
      assert forall k :: 1 <= k < |members| ==> members[k] == members[1..][k - 1];
      FindMember(members[1..], id)
  }

  /** The ids looked up, each mapped to its member; unknown ids dropped. */
  function MatchMembers(ids: seq<string>, members: seq<ClientMember>): (r: seq<ClientMember>)
    ensures forall k :: 0 <= k < |r| ==> r[k] in members && r[k].id in ids
  {
    if ids == [] then []
    else
      var found := FindMember(members, ids[|ids| - 1]);
      MatchMembers(ids[..|ids| - 1], members) + (if found.Some? then [found.value] else [])
  }

  /** Every looked-up id that names a member is matched. */
  lemma {:induction false} MatchMembersComplete(ids: seq<string>, members: seq<ClientMember>, id: string)
    requires id in ids && FindMember(members, id).Some?
    ensures exists k :: 0 <= k < |MatchMembers(ids, members)| && MatchMembers(ids, members)[k].id == id
  {
    var init := ids[..|ids| - 1];
    var r := MatchMembers(ids, members);
    if id == ids[|ids| - 1] {
      assert r[|r| - 1].id == id;
    } else {
      assert id in init by { assert ids == init + [ids[|ids| - 1]]; }
      MatchMembersComplete(init, members, id);
      var k :| 0 <= k < |MatchMembers(init, members)| && MatchMembers(init, members)[k].id == id;
      assert r[k] == MatchMembers(init, members)[k];
    }
  }

  predicate DistinctIds(ms: seq<ClientMember>)
  {
    forall i, j :: 0 <= i < j < |ms| ==> ms[i].id != ms[j].id
  }

  /** Distinct ids give distinct members. */
  lemma {:induction false} MatchMembersDistinct(ids: seq<string>, members: seq<ClientMember>)
    requires forall i, j :: 0 <= i < j < |ids| ==> ids[i] != ids[j]
    ensures DistinctIds(MatchMembers(ids, members))
  {
    if ids != [] {
      var init := ids[..|ids| - 1];
      var id := ids[|ids| - 1];
      MatchMembersDistinct(init, members);
      var rest := MatchMembers(init, members);
      forall k | 0 <= k < |rest| ensures rest[k].id != id {
        var i :| 0 <= i < |init| && init[i] == rest[k].id;
        assert ids[i] != ids[|ids| - 1];
      }
      var found := FindMember(members, id);
      if found.Some? {
        var r := rest + [found.value];
        assert MatchMembers(ids, members) == r;
        forall i, j | 0 <= i < j < |r| ensures r[i].id != r[j].id {
          assert r[i] == rest[i];
          if j < |rest| {
            assert r[j] == rest[j];
          }
        }
        assert DistinctIds(r);
      } else {
        assert MatchMembers(ids, members) == rest;
      }
    }
  }

  /** The first four members, or all of them when fewer. */
  function Fallback(members: seq<ClientMember>): (r: seq<ClientMember>)
    ensures |r| == if |members| < 4 then |members| else 4
    ensures r == members[..|r|]
  {
    members[..if |members| < 4 then |members| else 4]
  }

  /** The ids the avatars look for, as written: `task.assignedTo` kept when
      truthy. A populated member is an object, which `===` never finds equal
      to a member's id string, so only plain non-empty strings can match. */
  function RawKeys(ts: seq<ApiTask>): (ks: seq<string>)
    ensures forall k :: k in ks ==> k != ""
  {
    if ts == [] then []
    else
      var ref := ts[|ts| - 1].assignedTo;
      RawKeys(ts[..|ts| - 1]) + (if ref.Text? && ref.s != "" then [ref.s] else [])
  }

  /** `getProjectAvatars` as written. */
  function AvatarsAsWritten(members: seq<ClientMember>, ts: seq<ApiTask>): (r: seq<ClientMember>)
    ensures forall m :: m in r ==> m in members
  {
    var matched := MatchMembers(Dedup(RawKeys(ts)), members);
    if matched != [] then matched else Fallback(members)
  }

  /** Tasks as the server lists them carry a populated object or null, and
      then the avatars as written always fall back to the first members. */
  lemma {:induction false} AvatarsAsWrittenIgnorePopulated(members: seq<ClientMember>, ts: seq<ApiTask>)
    requires forall i :: 0 <= i < |ts| ==> !ts[i].assignedTo.Text?
    ensures AvatarsAsWritten(members, ts) == Fallback(members)
  {
    NoTextNoKeys(ts);
  }

  lemma {:induction false} NoTextNoKeys(ts: seq<ApiTask>)
    requires forall i :: 0 <= i < |ts| ==> !ts[i].assignedTo.Text?
    ensures RawKeys(ts) == []
  {
    if ts != [] {
      NoTextNoKeys(ts[..|ts| - 1]);
    }
  }

  /** The truthy assignees of a task list, in order, read as the stats read
      them. */
  function AssigneeList(ts: seq<ApiTask>): (ks: seq<string>)
    ensures forall k :: k in ks <==> AssigneeCount(ts, k) > 0
  {
    if ts == [] then []
    else
      var a := DashboardAssignee(ts[|ts| - 1].assignedTo);
      AssigneeList(ts[..|ts| - 1]) + (if Truthy(a) then [a.value] else [])
  }

  /** `getProjectAvatars` reading the assignee as the stats do. */
  function ProjectAvatars(members: seq<ClientMember>, ts: seq<ApiTask>): (r: seq<ClientMember>)
    ensures forall m :: m in r ==> m in members
  {
    var matched := MatchMembers(Dedup(AssigneeList(ts)), members);
    if matched != [] then matched else Fallback(members)
  }

  /** When some member is assigned in the project, the avatars are exactly
      the assigned members, once each. */
  lemma ProjectAvatarsAssigned(members: seq<ClientMember>, ts: seq<ApiTask>, k0: nat)
    requires k0 < |members| && AssigneeCount(ts, members[k0].id) > 0
    ensures var r := ProjectAvatars(members, ts);
      && (forall i :: 0 <= i < |r| ==> AssigneeCount(ts, r[i].id) > 0)
      && (forall k :: 0 <= k < |members| && AssigneeCount(ts, members[k].id) > 0 ==>
            exists i :: 0 <= i < |r| && r[i].id == members[k].id)
      && DistinctIds(r)
  {
    var ids := Dedup(AssigneeList(ts));
    MatchMembersComplete(ids, members, members[k0].id);
    MatchMembersDistinct(ids, members);
    forall k | 0 <= k < |members| && AssigneeCount(ts, members[k].id) > 0
      ensures exists i :: 0 <= i < |MatchMembers(ids, members)| && MatchMembers(ids, members)[i].id == members[k].id
    {
      MatchMembersComplete(ids, members, members[k].id);
    }
  }

  /** When no member is assigned in the project, the avatars are the first
      (up to) four members. */
  lemma ProjectAvatarsFallback(members: seq<ClientMember>, ts: seq<ApiTask>)
    requires forall k :: 0 <= k < |members| ==> AssigneeCount(ts, members[k].id) == 0
    ensures ProjectAvatars(members, ts) == Fallback(members)
  {
  }

  lemma {:induction false} TextKeysAgree(ts: seq<ApiTask>)
    requires forall i :: 0 <= i < |ts| ==> ts[i].assignedTo.Text?
    ensures RawKeys(ts) == AssigneeList(ts)
  {
    if ts != [] {
      TextKeysAgree(ts[..|ts| - 1]);
    }
  }

  /** Where every task carries a plain id string the two readings agree. */
  lemma AvatarsAgreeOnPlainIds(members: seq<ClientMember>, ts: seq<ApiTask>)
    requires forall i :: 0 <= i < |ts| ==> ts[i].assignedTo.Text?
    ensures AvatarsAsWritten(members, ts) == ProjectAvatars(members, ts)
  {
    TextKeysAgree(ts);
  }

  /** Five members, one project task assigned to the fifth and populated:
      as written the card shows the first four members, read as intended it
      shows the fifth. */
  lemma AvatarsPopulatedExample()
    ensures var members := [ClientMember("a", "A"), ClientMember("b", "B"), ClientMember("c", "C"),
                            ClientMember("d", "D"), ClientMember("e", "E")];
      var ts := [ApiTask("t", "Write", false, "p", Object(Some("e"), None))];
      && AvatarsAsWritten(members, ts) == members[..4]
      && ProjectAvatars(members, ts) == [ClientMember("e", "E")]
  {
    var members := [ClientMember("a", "A"), ClientMember("b", "B"), ClientMember("c", "C"),
                    ClientMember("d", "D"), ClientMember("e", "E")];
    var ts := [ApiTask("t", "Write", false, "p", Object(Some("e"), None))];
    AvatarsAsWrittenIgnorePopulated(members, ts);
    PopulatedAssigneeFound(members, ts);
  }

  /** Read as the stats read it, the populated assignee `e` is found. */
  lemma PopulatedAssigneeFound(members: seq<ClientMember>, ts: seq<ApiTask>)
    requires members == [ClientMember("a", "A"), ClientMember("b", "B"), ClientMember("c", "C"),
                         ClientMember("d", "D"), ClientMember("e", "E")]
    requires ts == [ApiTask("t", "Write", false, "p", Object(Some("e"), None))]
    ensures ProjectAvatars(members, ts) == [ClientMember("e", "E")]
  {
    assert ts[..0] == [];
    assert AssigneeList(ts) == ["e"];
    assert ["e"][..0] == [];
    assert Dedup(["e"]) == ["e"];
    var found := FindMember(members, "e");
    assert members[4].id == "e";
    assert found.value in members;
    assert found.value == ClientMember("e", "E");
    assert MatchMembers(["e"], members) == [ClientMember("e", "E")];
  }

  /** The dashboard page state. */
  class DashboardPage {
    var projects: seq<ClientProject>
    var members: seq<ClientMember>
    var tasksByProject: TaskMap
    var completedTasks: nat
    var error: Option<string>

    constructor ()
      ensures projects == [] && members == [] && tasksByProject == [] && completedTasks == 0 && error == None
    {
      projects, members, tasksByProject, completedTasks, error := [], [], [], 0, None;
    }

    /** `fetchDashboardData`, given what each service call returned (None for
        a failure): a failed project load only shows the error; a failed
        member load counts as no members; a failed task load of one project
        counts as no tasks for it. */
    method FetchDashboardData(loaded: Option<seq<ClientProject>>, team: Option<seq<ClientMember>>,
                              fetched: seq<Option<seq<ApiTask>>>)
      requires loaded.Some? ==> |fetched| == |loaded.value|
      modifies this
      ensures loaded.None? ==>
        && projects == old(projects) && members == old(members) && tasksByProject == old(tasksByProject)
        && completedTasks == old(completedTasks) && error == Some("Failed to load dashboard data. Please try again.")
      ensures loaded.Some? ==>
        && projects == loaded.value && members == (if team.Some? then team.value else [])
        && tasksByProject == Build(Results(loaded.value, fetched))
        && completedTasks == DoneTotal(Values(Results(loaded.value, fetched)))
        && error == None
    {
      if loaded.None? {
        error := Some("Failed to load dashboard data. Please try again.");
        return;
      }
      projects := loaded.value;
      members := if team.Some? then team.value else [];
      var taskMap, completedCount := CollectTasks(Results(loaded.value, fetched));
      tasksByProject, completedTasks := taskMap, completedCount;
      error := None;
    }
  }
}
