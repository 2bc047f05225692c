/** UpdateInstancesStatus: one flat list of tasks for many instances, kept aligned. */
module StatusRefresh {
  import opened Types
  import opened FleetProofs
  import opened Protocol

  /** A described task, with its addresses looked up; `createdAt` is its creation time. */
  datatype Task = Task(
    arn: string, cpu: int, memory: int, lastStatus: string, desiredStatus: string, createdAt: int,
    publicIpv4: string, privateIpv4: string)

  const NOT_CREATED := "NOT_CREATED"

  /** An instance to refresh, with the names of its tasks. */
  datatype Due = Due(instance: Instance, tasks: seq<string>)

  /** The instances that are looked at: the status is not the desired one or the row is stale, and the
      listing of tasks worked. */
  function DueOf(instances: seq<Instance>, stale: seq<bool>, listing: seq<Option<seq<string>>>): seq<Due>
    requires |stale| == |instances| == |listing|
  {
    if instances == [] then []
    else
      var n := |instances| - 1;
      var x := instances[n];
      DueOf(instances[..n], stale[..n], listing[..n])
      + if (x.lastStatus != x.desiredStatus || stale[n]) && listing[n].Some? then [Due(x, listing[n].value)] else []
  }

  function AllTasks(due: seq<Due>): seq<string> {
    if due == [] then [] else AllTasks(due[..|due| - 1]) + due[|due| - 1].tasks
  }

  // ---------------------------------------------------------------- the newest task

  /** The task a left-to-right scan keeps: a later one replaces it only if strictly newer. */
  function NewestOf(tasks: seq<Task>): Task
    requires tasks != []
  {
    if |tasks| == 1 then tasks[0]
    else
      var kept := NewestOf(tasks[..|tasks| - 1]);
      if tasks[|tasks| - 1].createdAt > kept.createdAt then tasks[|tasks| - 1] else kept
  }

  /** It is a newest task, and the first one among the newest. */
  lemma {:induction false} NewestIsFirstMaximum(tasks: seq<Task>) returns (k: nat)
    requires tasks != []
    ensures k < |tasks| && NewestOf(tasks) == tasks[k]
    ensures forall i | 0 <= i < |tasks| :: tasks[i].createdAt <= tasks[k].createdAt
    ensures forall i | 0 <= i < k :: tasks[i].createdAt < tasks[k].createdAt
  {
    if |tasks| == 1 {
      k := 0;
    } else {
      var n := |tasks| - 1;
      k := NewestIsFirstMaximum(tasks[..n]);
      if tasks[n].createdAt > tasks[k].createdAt {
        k := n;
      }
    }
  }

  function Described(names: seq<string>, describe: string -> Task): (r: seq<Task>)
    ensures |r| == |names| && forall i | 0 <= i < |names| :: r[i] == describe(names[i])
  {
    seq(|names|, i requires 0 <= i < |names| => describe(names[i]))
  }

  function FromTask(x: Instance, task: Task, usePublicIpv4: bool): Instance {
    x.(taskArn := task.arn,
       ipv4 := if usePublicIpv4 then task.publicIpv4 else task.privateIpv4,
       shape := Shape(task.cpu, task.memory),
       lastStatus := task.lastStatus,
       desiredStatus := task.desiredStatus)
  }

  /** What the row of an instance becomes: the fields of its own newest task, or NOT_CREATED. */
  function RefreshOf(due: Due, describe: string -> Task, usePublicIpv4: bool): Instance {
    if due.tasks == [] then due.instance.(lastStatus := NOT_CREATED)
    else FromTask(due.instance, NewestOf(Described(due.tasks, describe)), usePublicIpv4)
  }

  /** Task `k` is created last, and is the first one in the list that was. */
  predicate FirstNewest(names: seq<string>, describe: string -> Task, k: nat) {
    && k < |names|
    && (forall i | 0 <= i < |names| :: describe(names[i]).createdAt <= describe(names[k]).createdAt)
    && (forall i | 0 <= i < k :: describe(names[i]).createdAt < describe(names[k]).createdAt)
  }

  /** The row shows the task: its name, size and status, and the address of the wanted kind. */
  predicate Shows(row: Instance, task: Task, usePublicIpv4: bool) {
    && row.taskArn == task.arn
    && (usePublicIpv4 ==> row.ipv4 == task.publicIpv4) && (!usePublicIpv4 ==> row.ipv4 == task.privateIpv4)
    && row.shape.cpu == task.cpu && row.shape.memory == task.memory
    && row.lastStatus == task.lastStatus && row.desiredStatus == task.desiredStatus
  }

  /** A refreshed row shows the first newest of its own tasks and keeps its service, function and pool; a
      row without tasks only gets the status NOT_CREATED. */
  ghost predicate ShownBy(row: Instance, due: Due, describe: string -> Task, usePublicIpv4: bool) {
    var was := due.instance;
    if due.tasks == [] then row == was.(lastStatus := "NOT_CREATED")
    else
      && row.service == was.service && row.func == was.func && row.launch == was.launch
      && exists k: nat :: FirstNewest(due.tasks, describe, k) && Shows(row, describe(due.tasks[k]), usePublicIpv4)
  }

  lemma RefreshShows(due: Due, describe: string -> Task, usePublicIpv4: bool)
    ensures ShownBy(RefreshOf(due, describe, usePublicIpv4), due, describe, usePublicIpv4)
  {
    if due.tasks != [] {
      var tasks := Described(due.tasks, describe);
      var k := NewestIsFirstMaximum(tasks);
      forall i | 0 <= i < |tasks| ensures tasks[i] == describe(due.tasks[i]) {}
      assert FirstNewest(due.tasks, describe, k);
    }
  }

  lemma AllShown(batch: seq<Instance>, due: seq<Due>, describe: string -> Task, usePublicIpv4: bool)
    requires IsBatch(batch, due, describe, usePublicIpv4)
    ensures forall u | 0 <= u < |due| :: ShownBy(batch[u], due[u], describe, usePublicIpv4)
  {
    forall u | 0 <= u < |due| ensures ShownBy(batch[u], due[u], describe, usePublicIpv4) {
      RefreshShows(due[u], describe, usePublicIpv4);
    }
  }

  /** A shown row runs if and only if the first newest task runs. */
  lemma ShownRuns(row: Instance, due: Due, describe: string -> Task, usePublicIpv4: bool)
    requires ShownBy(row, due, describe, usePublicIpv4)
    ensures row.func == due.instance.func
    ensures row.lastStatus == "RUNNING"
      <==> exists k: nat :: FirstNewest(due.tasks, describe, k) && describe(due.tasks[k]).lastStatus == "RUNNING"
  {
    if due.tasks != [] {
      var k: nat :| FirstNewest(due.tasks, describe, k) && Shows(row, describe(due.tasks[k]), usePublicIpv4);
      forall j: nat | FirstNewest(due.tasks, describe, j) ensures j == k {}
    }
  }

  // ---------------------------------------------------------------- collecting

  function Indices(taskMap: map<nat, seq<nat>>, u: nat): seq<nat> {
    if u in taskMap then taskMap[u] else []
  }

  /** The ascending run of the indices from `lo` to `hi`. */
  function Run(lo: nat, hi: nat): (r: seq<nat>)
    requires lo <= hi
    ensures |r| == hi - lo && forall i | 0 <= i < |r| :: r[i] == lo + i
  {
    seq(hi - lo, i requires 0 <= i < hi - lo => lo + i)
  }

  /** The index lists cut 0..|taskList| into consecutive runs, one for each instance in order, and
      the run of an instance points at its own tasks. */
  ghost predicate Aligned(due: seq<Due>, taskList: seq<string>, taskMap: map<nat, seq<nat>>, starts: seq<nat>) {
    && |starts| == |due| + 1 && starts[0] == 0 && starts[|due|] == |taskList|
    && (forall u | u in taskMap :: u < |due|)
    && forall u | 0 <= u < |due| :: AlignedAt(due, taskList, taskMap, starts, u)
  }

  ghost predicate AlignedAt(due: seq<Due>, taskList: seq<string>, taskMap: map<nat, seq<nat>>, starts: seq<nat>, u: nat)
    requires u < |due| < |starts|
  {
    && starts[u] <= starts[u + 1] <= |taskList|
    && Indices(taskMap, u) == Run(starts[u], starts[u + 1])
    && taskList[starts[u]..starts[u + 1]] == due[u].tasks
  }

  /** Append the tasks of one instance to the flat list and record their indices. */
  method AppendTasks(taskList: seq<string>, tasks: seq<string>) returns (list: seq<string>, indices: seq<nat>)
    ensures list == taskList + tasks
    ensures indices == Run(|taskList|, |taskList| + |tasks|)
  {
    list, indices := taskList, [];
    for i := 0 to |tasks|
      invariant list == taskList + tasks[..i]
      invariant indices == Run(|taskList|, |taskList| + i)
    {
      list := list + [tasks[i]];
      indices := indices + [|list| - 1];
    }
  }

  /** The rows as they stand after the first half: an instance without tasks is marked already. */
  ghost predicate Prepared(updateIns: seq<Instance>, due: seq<Due>) {
    && |updateIns| == |due|
    && forall u | 0 <= u < |due| :: updateIns[u] == Marked(due[u])
  }

  function Marked(due: Due): Instance {
    if due.tasks == [] then due.instance.(lastStatus := NOT_CREATED) else due.instance
  }

  lemma DueSnoc(instances: seq<Instance>, stale: seq<bool>, listing: seq<Option<seq<string>>>, n: nat)
    requires n < |stale| == |instances| == |listing|
    ensures DueOf(instances[..n + 1], stale[..n + 1], listing[..n + 1])
         == DueOf(instances[..n], stale[..n], listing[..n])
            + if (instances[n].lastStatus != instances[n].desiredStatus || stale[n]) && listing[n].Some?
              then [Due(instances[n], listing[n].value)] else []
  {
    assert instances[..n + 1][..n] == instances[..n] && stale[..n + 1][..n] == stale[..n]
      && listing[..n + 1][..n] == listing[..n];
  }

  /** Add one instance that is due, with its tasks, to what was collected so far. */
  method AddInstance(taskList: seq<string>, taskMap: map<nat, seq<nat>>, updateIns: seq<Instance>, instance: Instance,
                     tasks: seq<string>, ghost due: seq<Due>, ghost starts: seq<nat>)
    returns (list: seq<string>, taskMap': map<nat, seq<nat>>, updateIns': seq<Instance>, ghost starts': seq<nat>)
    requires Aligned(due, taskList, taskMap, starts) && Prepared(updateIns, due)
    ensures list == taskList + tasks
    ensures Aligned(due + [Due(instance, tasks)], list, taskMap', starts')
    ensures Prepared(updateIns', due + [Due(instance, tasks)])
  {
    list, taskMap', starts' := taskList, taskMap, starts + [|taskList| + |tasks|];
    updateIns' := updateIns + [instance];
    var updateIdx := |updateIns'| - 1;
    if |tasks| == 0 {
      AlignedWithNone(due, taskList, taskMap, starts, instance);
      updateIns' := updateIns'[updateIdx := updateIns'[updateIdx].(lastStatus := NOT_CREATED)];
      assert taskList + tasks == taskList;
    } else {
      AlignedWithMore(due, taskList, taskMap, starts, Due(instance, tasks));
      var indices: seq<nat>;
      list, indices := AppendTasks(taskList, tasks);
      taskMap' := taskMap[updateIdx := indices];
    }
  }

  /** First half of UpdateInstancesStatus: choose the instances and flatten their tasks. */
  method CollectTasks(funcInstances: seq<Instance>, stale: seq<bool>, listing: seq<Option<seq<string>>>)
    returns (taskList: seq<string>, taskMap: map<nat, seq<nat>>, updateIns: seq<Instance>, ghost due: seq<Due>,
             ghost starts: seq<nat>)
    requires |stale| == |funcInstances| == |listing|
    ensures due == DueOf(funcInstances, stale, listing)
    ensures taskList == AllTasks(DueOf(funcInstances, stale, listing))
    ensures Prepared(updateIns, DueOf(funcInstances, stale, listing))
    ensures Aligned(due, taskList, taskMap, starts)
  {
    taskList, taskMap, updateIns, due, starts := [], map[], [], [], [0];
    for i := 0 to |funcInstances|
      invariant due == DueOf(funcInstances[..i], stale[..i], listing[..i]) && taskList == AllTasks(due)
      invariant Aligned(due, taskList, taskMap, starts)
      invariant Prepared(updateIns, due)
    {
      var instance := funcInstances[i];
      DueSnoc(funcInstances, stale, listing, i);
      if (instance.lastStatus != instance.desiredStatus || stale[i]) && listing[i].Some? {
        var tasks := listing[i].value;
        taskList, taskMap, updateIns, starts := AddInstance(taskList, taskMap, updateIns, instance, tasks, due, starts);
        assert (due + [Due(instance, tasks)])[..|due|] == due;
        due := due + [Due(instance, tasks)];
      }
    }
    assert funcInstances[..|funcInstances|] == funcInstances && stale[..|stale|] == stale
      && listing[..|listing|] == listing;
  }

  lemma AlignedWithNone(due: seq<Due>, taskList: seq<string>, taskMap: map<nat, seq<nat>>, starts: seq<nat>,
                        x: Instance)
    requires Aligned(due, taskList, taskMap, starts)
    ensures Aligned(due + [Due(x, [])], taskList, taskMap, starts + [|taskList|])
  {
    var due', starts' := due + [Due(x, [])], starts + [|taskList|];
    forall u | 0 <= u < |due'| ensures AlignedAt(due', taskList, taskMap, starts', u) {
      if u < |due| {
        assert AlignedAt(due, taskList, taskMap, starts, u);
      }
    }
  }

  lemma AlignedWithMore(due: seq<Due>, taskList: seq<string>, taskMap: map<nat, seq<nat>>, starts: seq<nat>, more: Due)
    requires Aligned(due, taskList, taskMap, starts)
    ensures var n, m := |taskList|, |taskList| + |more.tasks|;
      Aligned(due + [more], taskList + more.tasks, taskMap[|due| := Run(n, m)], starts + [m])
  {
    var n, m := |taskList|, |taskList| + |more.tasks|;
    var due', list', starts' := due + [more], taskList + more.tasks, starts + [m];
    var taskMap' := taskMap[|due| := Run(n, m)];
    forall u | 0 <= u < |due'| ensures AlignedAt(due', list', taskMap', starts', u) {
      if u < |due| {
        assert AlignedAt(due, taskList, taskMap, starts, u);
        assert list'[starts[u]..starts[u + 1]] == taskList[starts[u]..starts[u + 1]];
      }
    }
  }

  // ---------------------------------------------------------------- applying

  /** Scan the described tasks at the given indices for the newest one. */
  method FindNewest(output: seq<Task>, indices: seq<nat>, ghost tasks: seq<Task>) returns (updateTask: Option<Task>)
    requires |tasks| == |indices|
    requires forall i | 0 <= i < |indices| :: indices[i] < |output| && output[indices[i]] == tasks[i]
    ensures updateTask == if tasks == [] then None else Some(NewestOf(tasks))
  {
    updateTask := None;
    for i := 0 to |indices|
      invariant updateTask == if i == 0 then None else Some(NewestOf(tasks[..i]))
    {
      assert tasks[..i + 1][..i] == tasks[..i];
      var task := output[indices[i]];
      if updateTask == None {
        updateTask := Some(task);
      } else if task.createdAt > updateTask.value.createdAt {
        updateTask := Some(task);
      }
    }
    assert tasks[..|tasks|] == tasks;
  }

  /** UpdateInstancesStatus: the rows it writes back, or None if it writes nothing.  `describe` answers
      the description of all tasks at once, position by position, or fails. */
  method UpdateInstancesStatus(funcInstances: seq<Instance>, stale: seq<bool>, listing: seq<Option<seq<string>>>,
                               describe: Option<string -> Task>, usePublicIpv4: bool)
    returns (batch: Option<seq<Instance>>)
    requires |stale| == |funcInstances| == |listing|
    ensures var due := DueOf(funcInstances, stale, listing);
      && (batch.None? <==> describe.None? || AllTasks(due) == [])
      && (batch.Some? ==>
            && |batch.value| == |due|
            && forall u | 0 <= u < |due| :: batch.value[u] == RefreshOf(due[u], describe.value, usePublicIpv4))
    ensures batch.Some? ==>
      var due := DueOf(funcInstances, stale, listing);
      forall u | 0 <= u < |due| :: ShownBy(batch.value[u], due[u], describe.value, usePublicIpv4)
  {
    var taskList, taskMap, updateIns, due, starts := CollectTasks(funcInstances, stale, listing);
    if |taskList| == 0 || describe.None? {
      return None;
    }
    var output := Described(taskList, describe.value);
    for i := 0 to |updateIns|
      invariant |updateIns| == |due|
      invariant forall u | 0 <= u < i :: updateIns[u] == RefreshOf(due[u], describe.value, usePublicIpv4)
      invariant forall u | i <= u < |due| :: updateIns[u] == Marked(due[u])
    {
      ghost var tasks := Described(due[i].tasks, describe.value);
      var indices := Indices(taskMap, i);
      OwnTasks(due, taskList, taskMap, starts, describe.value, i);
      var updateTask := FindNewest(output, indices, tasks);
      match updateTask {
        case None => updateIns := updateIns[i := updateIns[i].(lastStatus := NOT_CREATED)];
        case Some(task) => updateIns := updateIns[i := FromTask(updateIns[i], task, usePublicIpv4)];
      }
    }
    AllShown(updateIns, due, describe.value, usePublicIpv4);
    return Some(updateIns);
  }

  /** The positions recorded for an instance hold the descriptions of its own tasks. */
  lemma OwnTasks(due: seq<Due>, taskList: seq<string>, taskMap: map<nat, seq<nat>>, starts: seq<nat>,
                 describe: string -> Task, u: nat)
    requires Aligned(due, taskList, taskMap, starts) && u < |due|
    ensures var tasks, output := Described(due[u].tasks, describe), Described(taskList, describe);
      var indices := Indices(taskMap, u);
      |tasks| == |indices| && forall i | 0 <= i < |indices| :: indices[i] < |output| && output[indices[i]] == tasks[i]
  {
    assert AlignedAt(due, taskList, taskMap, starts, u);
    var own := taskList[starts[u]..starts[u + 1]];
    forall i | 0 <= i < |own| ensures own[i] == taskList[starts[u] + i] {}
  }

  // ---------------------------------------------------------------- writing back

  /** The table after an upsert: rows of the batch replace the rows of the same service. */
  function Upsert(table: seq<Instance>, batch: seq<Instance>): (r: seq<Instance>)
    ensures |r| == |table|
    ensures forall i | 0 <= i < |table| :: r[i] == Replaced(table[i], batch)
  {
    seq(|table|, i requires 0 <= i < |table| => Replaced(table[i], batch))
  }

  function Replaced(x: Instance, batch: seq<Instance>): Instance {
    if batch == [] then x
    else
      var last := batch[|batch| - 1];
      if last.service == x.service then last else Replaced(x, batch[..|batch| - 1])
  }

  lemma {:induction false} ReplacedBy(x: Instance, batch: seq<Instance>)
    ensures Replaced(x, batch) == x || (Replaced(x, batch) in batch && Replaced(x, batch).service == x.service)
  {
    if batch != [] {
      ReplacedBy(x, batch[..|batch| - 1]);
    }
  }

  lemma {:induction false} ReplacedAt(x: Instance, batch: seq<Instance>, u: nat)
    requires u < |batch| && batch[u].service == x.service
    requires forall j | 0 <= j < |batch| && j != u :: batch[j].service != x.service
    ensures Replaced(x, batch) == batch[u]
  {
    if u < |batch| - 1 {
      ReplacedAt(x, batch[..|batch| - 1], u);
    }
  }

  ghost predicate Looked(x: Instance, stale: bool, tasks: Option<seq<string>>) {
    (x.lastStatus != x.desiredStatus || stale) && tasks.Some?
  }

  /** An instance is due, with the tasks listed for it, exactly if it is not in its desired status or its
      row is stale, and the listing worked. */
  lemma {:induction false} DueExactly(instances: seq<Instance>, stale: seq<bool>, listing: seq<Option<seq<string>>>,
                                      d: Due)
    requires |stale| == |instances| == |listing|
    ensures d in DueOf(instances, stale, listing)
      <==> exists i :: 0 <= i < |instances| && Looked(instances[i], stale[i], listing[i])
                       && d == Due(instances[i], listing[i].value)
  {
    if instances != [] {
      var n := |instances| - 1;
      DueExactly(instances[..n], stale[..n], listing[..n], d);
      if d in DueOf(instances[..n], stale[..n], listing[..n]) {
        var i :| 0 <= i < n && Looked(instances[..n][i], stale[..n][i], listing[..n][i])
                 && d == Due(instances[..n][i], listing[..n][i].value);
        assert Looked(instances[i], stale[i], listing[i]);
      }
      if i :| 0 <= i < n && Looked(instances[i], stale[i], listing[i]) && d == Due(instances[i], listing[i].value) {
        assert Looked(instances[..n][i], stale[..n][i], listing[..n][i]);
      }
    }
  }

  lemma {:induction false} NoTasksAtAll(due: seq<Due>)
    ensures AllTasks(due) == [] <==> forall d | d in due :: d.tasks == []
  {
    if due != [] {
      var front, last := due[..|due| - 1], due[|due| - 1];
      NoTasksAtAll(front);
      assert last in due && forall d | d in front :: d in due;
      assert forall d | d in due :: d in front || d == last;
    }
  }

  lemma {:induction false} DueAreRows(instances: seq<Instance>, stale: seq<bool>, listing: seq<Option<seq<string>>>)
    requires |stale| == |instances| == |listing|
    ensures forall due | due in DueOf(instances, stale, listing) :: due.instance in instances
  {
    if instances != [] {
      var n := |instances| - 1;
      DueAreRows(instances[..n], stale[..n], listing[..n]);
      assert forall x | x in instances[..n] :: x in instances;
    }
  }

  ghost predicate DistinctDue(due: seq<Due>) {
    forall i, j | 0 <= i < |due| && 0 <= j < |due| && i != j :: due[i].instance.service != due[j].instance.service
  }

  lemma {:induction false} DueAreDistinct(instances: seq<Instance>, stale: seq<bool>, listing: seq<Option<seq<string>>>)
    requires |stale| == |instances| == |listing| && DistinctServices(instances)
    ensures DistinctDue(DueOf(instances, stale, listing))
  {
    if instances != [] {
      var n := |instances| - 1;
      var front := DueOf(instances[..n], stale[..n], listing[..n]);
      DueAreDistinct(instances[..n], stale[..n], listing[..n]);
      DueAreRows(instances[..n], stale[..n], listing[..n]);
      forall i | 0 <= i < |front| ensures front[i].instance.service != instances[n].service {
        assert front[i] in front;
        var k :| 0 <= k < n && instances[..n][k] == front[i].instance;
        assert instances[k] == front[i].instance;
      }
      var due := DueOf(instances, stale, listing);
      assert due == front || (due == front + [due[|front|]] && due[|front|].instance == instances[n]);
    }
  }

  /** The newest task, if there is one, runs with the size that the row of the instance records. */
  ghost predicate KeepsSize(due: Due, describe: string -> Task) {
    due.tasks != [] ==>
      var task := NewestOf(Described(due.tasks, describe));
      Shape(task.cpu, task.memory) == due.instance.shape
  }

  lemma RefreshKeepsSlot(due: Due, describe: string -> Task, usePublicIpv4: bool)
    ensures SameSlot(due.instance, RefreshOf(due, describe, usePublicIpv4)) <==> KeepsSize(due, describe)
  {}

  ghost predicate IsBatch(batch: seq<Instance>, due: seq<Due>, describe: string -> Task, usePublicIpv4: bool) {
    && |batch| == |due|
    && forall u | 0 <= u < |due| :: batch[u] == RefreshOf(due[u], describe, usePublicIpv4)
  }

  /** Every row that is due is replaced by its own entry of the batch. */
  lemma UpsertReplaces(instances: seq<Instance>, stale: seq<bool>, listing: seq<Option<seq<string>>>,
                       describe: string -> Task, usePublicIpv4: bool, batch: seq<Instance>, u: nat)
    returns (i: nat)
    requires |stale| == |instances| == |listing| && DistinctServices(instances)
    requires IsBatch(batch, DueOf(instances, stale, listing), describe, usePublicIpv4) && u < |batch|
    ensures i < |instances| && instances[i] == DueOf(instances, stale, listing)[u].instance
    ensures Upsert(instances, batch)[i] == batch[u]
  {
    var due := DueOf(instances, stale, listing);
    DueAreRows(instances, stale, listing);
    DueAreDistinct(instances, stale, listing);
    assert due[u] in due;
    i :| 0 <= i < |instances| && instances[i] == due[u].instance;
    forall j | 0 <= j < |batch| ensures batch[j].service == due[j].instance.service {
      assert batch[j] == RefreshOf(due[j], describe, usePublicIpv4);
    }
    forall j | 0 <= j < |batch| && j != u ensures batch[j].service != instances[i].service {
      assert due[j].instance.service != due[u].instance.service;
    }
    ReplacedAt(instances[i], batch, u);
  }

  lemma BatchEntry(batch: seq<Instance>, due: seq<Due>, describe: string -> Task, usePublicIpv4: bool, x: Instance)
    returns (d: Due)
    requires IsBatch(batch, due, describe, usePublicIpv4) && x in batch
    ensures d in due && x == RefreshOf(d, describe, usePublicIpv4) && d.instance.service == x.service
  {
    var u :| 0 <= u < |batch| && batch[u] == x;
    d := due[u];
  }

  /** A row is left alone, or it is due. */
  lemma UpsertSparesOthers(instances: seq<Instance>, stale: seq<bool>, listing: seq<Option<seq<string>>>,
                           describe: string -> Task, usePublicIpv4: bool, batch: seq<Instance>, i: nat)
    requires |stale| == |instances| == |listing| && DistinctServices(instances) && i < |instances|
    requires IsBatch(batch, DueOf(instances, stale, listing), describe, usePublicIpv4)
    ensures var after := Upsert(instances, batch);
      after[i] == instances[i]
      || exists due :: due in DueOf(instances, stale, listing) && due.instance == instances[i]
                       && after[i] == RefreshOf(due, describe, usePublicIpv4)
  {
    var x := Upsert(instances, batch)[i];
    ReplacedBy(instances[i], batch);
    if x != instances[i] {
      var d := BatchEntry(batch, DueOf(instances, stale, listing), describe, usePublicIpv4, x);
      DueAreRows(instances, stale, listing);
      assert d.instance in instances && d.instance.service == instances[i].service;
    }
  }

  /** Writing the batch back changes status, task and address and nothing else, and so is a step of the
      protocol, if and only if every newest task runs with the size of its instance. */
  lemma RefreshIsAStep(instances: seq<Instance>, stale: seq<bool>, listing: seq<Option<seq<string>>>,
                       describe: string -> Task, usePublicIpv4: bool, batch: seq<Instance>)
    requires |stale| == |instances| == |listing| && DistinctServices(instances)
    requires IsBatch(batch, DueOf(instances, stale, listing), describe, usePublicIpv4)
    ensures Refreshed(instances, Upsert(instances, batch))
      <==> forall due | due in DueOf(instances, stale, listing) :: KeepsSize(due, describe)
  {
    var due, after := DueOf(instances, stale, listing), Upsert(instances, batch);
    if forall d | d in due :: KeepsSize(d, describe) {
      forall i | 0 <= i < |instances| ensures SameSlot(instances[i], after[i]) {
        UpsertSparesOthers(instances, stale, listing, describe, usePublicIpv4, batch, i);
        forall d | d in due && d.instance == instances[i]
          ensures SameSlot(instances[i], RefreshOf(d, describe, usePublicIpv4))
        {
          RefreshKeepsSlot(d, describe, usePublicIpv4);
        }
      }
    }
    if Refreshed(instances, after) {
      forall d | d in due ensures KeepsSize(d, describe) {
        var u :| 0 <= u < |due| && due[u] == d;
        var i := UpsertReplaces(instances, stale, listing, describe, usePublicIpv4, batch, u);
        RefreshKeepsSlot(d, describe, usePublicIpv4);
        assert SameSlot(instances[i], after[i]);
      }
    }
  }

  /** What the scheduler reads afterwards: a refreshed row is among the running instances of its function if
      and only if it has a task, and the first newest of its own tasks runs. */
  lemma RefreshedRowsRun(instances: seq<Instance>, stale: seq<bool>, listing: seq<Option<seq<string>>>,
                         describe: string -> Task, usePublicIpv4: bool, batch: seq<Instance>, u: nat)
    requires |stale| == |instances| == |listing| && DistinctServices(instances)
    requires IsBatch(batch, DueOf(instances, stale, listing), describe, usePublicIpv4) && u < |batch|
    ensures var due := DueOf(instances, stale, listing)[u];
      batch[u] in RunningOf(Upsert(instances, batch), due.instance.func)
      <==> exists k: nat :: FirstNewest(due.tasks, describe, k) && describe(due.tasks[k]).lastStatus == "RUNNING"
  {
    var due := DueOf(instances, stale, listing)[u];
    var i := UpsertReplaces(instances, stale, listing, describe, usePublicIpv4, batch, u);
    AllShown(batch, DueOf(instances, stale, listing), describe, usePublicIpv4);
    ShownRuns(batch[u], due, describe, usePublicIpv4);
    assert Upsert(instances, batch)[i] in Upsert(instances, batch);
  }
}
