/** The scheduler as an object, and its agreement with the protocol. */
module Scheduler {
  import opened Types
  import opened Tables
  import opened Placement
  import opened Policies
  import opened FleetProofs
  import opened Protocol
  import opened Pairing
  import opened Queue
  import opened Retries

  /** Which of the database operations of one Schedule call work. */
  datatype Faults = Faults(instancesOk: bool, rowsOk: bool, insertOk: bool)

  /** The steps of the protocol that one uninterrupted call of Schedule takes. */
  function StepsOf(queue: seq<Request>, faults: Faults, choice: Option<Instance>): seq<SchedulerStep> {
    if queue == [] then [Peek]
    else if !faults.instancesOk then [Peek, ReadInstances(false)]
    else if !faults.rowsOk then [Peek, ReadInstances(true), ReadRows(false, None)]
    else if choice.None? then [Peek, ReadInstances(true), ReadRows(true, None)]
    else if !faults.insertOk then [Peek, ReadInstances(true), ReadRows(true, choice), Insert(false)]
    else [Peek, ReadInstances(true), ReadRows(true, choice), Insert(true), Pop]
  }

  ghost predicate Takes(cfg: Config, s: State, steps: seq<SchedulerStep>, s': State)
    decreases |steps|
  {
    if steps == [] then s == s'
    else SchedulerEnabled(cfg, s, steps[0]) && Takes(cfg, NextScheduler(cfg, s, steps[0]), steps[1..], s')
  }

  /** What one call of Schedule did: it chose as the policy must, and either changed nothing, or
      moved the head of the queue to the placement table and started its routine. */
  ghost predicate Scheduled(policy: Policy, queue: seq<Request>, rows: seq<Row>, instances: seq<Instance>,
                            faults: Faults, choice: Option<Instance>,
                            queue': seq<Request>, rows': seq<Row>, started: Option<Routine>) {
    if queue == [] || !faults.instancesOk || !faults.rowsOk then queue' == queue && rows' == rows && started == None
    else
      var req := queue[0];
      && Chooses(policy, req, RowsOfFunction(rows, req.func), RunningOf(instances, req.func), choice)
      && if choice.None? || !faults.insertOk then queue' == queue && rows' == rows && started == None
         else
           var row := Placed(req, choice.value);
           queue' == queue[1..] && rows' == rows + [row] && started == Some(Routine(req, row, Calling))
  }

  class ReqScheduler {
    const policy: Policy
    const reqQueue: ReqQueue
    /** The placement table, and the routines started so far. */
    var rows: seq<Row>
    var routines: seq<Routine>

    constructor (policy: Policy, reqQueue: ReqQueue)
      ensures this.policy == policy && this.reqQueue == reqQueue && rows == [] && routines == []
    {
      this.policy := policy;
      this.reqQueue := reqQueue;
      rows := [];
      routines := [];
    }

    /** Schedule, with the instance table as it is read; `random` feeds the one-task policy. */
    method Schedule(instances: seq<Instance>, faults: Faults, random: nat) returns (ghost choice: Option<Instance>)
      requires DistinctServices(instances) && forall x | x in instances :: PositiveShape(x.shape)
      modifies this, reqQueue
      ensures exists started ::
        && Scheduled(policy, old(reqQueue.qu), old(rows), instances, faults, choice, reqQueue.qu, rows, started)
        && routines == old(routines) + if started.Some? then [started.value] else []
    {
      choice := None;
      var peeked := reqQueue.Peek();
      if peeked == None || !faults.instancesOk || !faults.rowsOk {
        assert Scheduled(policy, reqQueue.qu, rows, instances, faults, choice, reqQueue.qu, rows, None);
        return;
      }
      var req := peeked.value;
      var chosenIns: Option<Row>;
      chosenIns, choice := Choose(req, instances, random);
      if chosenIns == None || !faults.insertOk {
        assert Scheduled(policy, reqQueue.qu, rows, instances, faults, choice, reqQueue.qu, rows, None);
        return;
      }
      var info := chosenIns.value;
      var newRow := Row(req.id, req.payload, req.func, info.service, info.ipv4, req.cpu, req.memory);
      rows := rows + [newRow];
      reqQueue.Pop();
      var routine := Routine(req, newRow, Calling);
      routines := routines + [routine];
      assert reqQueue.qu == old(reqQueue.qu)[1..];
      assert Scheduled(policy, old(reqQueue.qu), old(rows), instances, faults, choice, reqQueue.qu, rows,
                       Some(routine));
    }

    /** Read the running instances and the rows of the function, and ask the policy. */
    method Choose(req: Request, instances: seq<Instance>, random: nat)
      returns (chosenIns: Option<Row>, ghost choice: Option<Instance>)
      requires DistinctServices(instances) && forall x | x in instances :: PositiveShape(x.shape)
      ensures Chooses(policy, req, RowsOfFunction(rows, req.func), RunningOf(instances, req.func), choice)
      ensures Returns(req, choice, chosenIns)
    {
      var funcInstances := RunningOf(instances, req.func);
      var reqScheduleInfo := RowsOfFunction(rows, req.func);
      RunningAreDistinct(instances, req.func);
      var insStatMap := PrepareStats(funcInstances);
      if policy == OneTaskPolicy {
        chosenIns, choice := OneTaskSchedule(req, reqScheduleInfo, insStatMap, random, funcInstances);
      } else {
        chosenIns, choice := BaseSchedule(req, reqScheduleInfo, insStatMap, funcInstances);
      }
    }

    method PrepareStats(funcInstances: seq<Instance>) returns (insStatMap: map<nat, InstanceStat>)
      requires DistinctServices(funcInstances) && forall x | x in funcInstances :: PositiveShape(x.shape)
      ensures StatsOf(insStatMap, funcInstances)
    {
      insStatMap := map[];
      for i := 0 to |funcInstances|
        invariant forall j | 0 <= j < i ::
          funcInstances[j].service in insStatMap && insStatMap[funcInstances[j].service] == FreshStat(funcInstances[j])
        invariant forall service | service in insStatMap ::
          exists j :: 0 <= j < i && funcInstances[j].service == service
      {
        insStatMap := insStatMap[funcInstances[i].service := FreshStat(funcInstances[i])];
      }
    }

    /** CallFunction: the retry loop.  `submit` gives the error of a failing submission, and `receive` the
        response to one that works. */
    method CallFunction(maxRetry: int, submit: nat -> Option<string>, receive: nat -> Outcome)
      returns (result: Outcome, ghost outcomes: seq<Outcome>)
      ensures maxRetry <= 0 ==> result == Err("call function failed")
      ensures maxRetry > 0 ==> exists k: nat :: EndsAt(maxRetry, submit, receive, k, result)
      ensures Recorded(submit, receive, outcomes) && FinalResult(maxRetry, outcomes, result)
    {
      outcomes := [];
      var i := 0;
      while i < maxRetry
        invariant 0 <= i == |outcomes| && (i == 0 || i < maxRetry)
        invariant Recorded(submit, receive, outcomes) && AllErrors(outcomes)
        decreases maxRetry - i
      {
        OneMore(maxRetry, submit, receive, outcomes);
        outcomes := outcomes + [OutcomeOf(submit, receive, i)];
        var error := submit(i);
        if error.Some? {
          if i >= maxRetry - 1 {
            return Err(error.value), outcomes;
          }
          i := i + 1;
          continue;
        }
        var resp := receive(i);
        if resp.Err? {
          if i >= maxRetry - 1 {
            return resp, outcomes;
          }
          i := i + 1;
          continue;
        }
        return resp, outcomes;
      }
      return Err(GAVE_UP), outcomes;
    }
  }

  /** Attempt number `k` is the first success or the last one allowed. */
  ghost predicate EndsAt(maxRetry: int, submit: nat -> Option<string>, receive: nat -> Outcome, k: nat,
                         result: Outcome) {
    && k < maxRetry && result == OutcomeOf(submit, receive, k)
    && (forall j | 0 <= j < k :: OutcomeOf(submit, receive, j).Err?)
    && (k < maxRetry - 1 ==> result.Ok?)
  }

  lemma OneMore(maxRetry: int, submit: nat -> Option<string>, receive: nat -> Outcome, outcomes: seq<Outcome>)
    requires Recorded(submit, receive, outcomes) && AllErrors(outcomes) && |outcomes| < maxRetry
    ensures var i := |outcomes|;
      var o := OutcomeOf(submit, receive, i);
      && Recorded(submit, receive, outcomes + [o])
      && (o.Err? ==> AllErrors(outcomes + [o]))
      && (o.Ok? || i >= maxRetry - 1 ==>
            FinalResult(maxRetry, outcomes + [o], o) && EndsAt(maxRetry, submit, receive, i, o))
  {
    forall j | 0 <= j < |outcomes| ensures OutcomeOf(submit, receive, j).Err? {
      assert outcomes[j] in outcomes;
    }
    assert (outcomes + [OutcomeOf(submit, receive, |outcomes|)])[..|outcomes|] == outcomes;
  }

  // ---------------------------------------------------------------- agreement with the protocol

  lemma {:induction false} RunningAreDistinct(instances: seq<Instance>, func: string)
    requires DistinctServices(instances)
    ensures DistinctServices(RunningOf(instances, func))
  {
    if instances != [] {
      var front, last := instances[..|instances| - 1], instances[|instances| - 1];
      RunningAreDistinct(front, func);
      assert forall x | x in RunningOf(front, func) :: x in front && x.service != last.service;
    }
  }

  /** One call of Schedule is a path of the protocol: from any state that agrees with the object on
      queue, placement table and instances, the steps lead to a state that agrees afterwards. */
  lemma ScheduleRefinesProtocol(cfg: Config, s: State, faults: Faults, choice: Option<Instance>,
                                queue': seq<Request>, rows': seq<Row>, started: Option<Routine>) returns (s': State)
    requires s.scheduler == Woken
    requires Scheduled(cfg.policy, s.queue, s.rows, s.fleet.instances, faults, choice, queue', rows', started)
    ensures Takes(cfg, s, StepsOf(s.queue, faults, choice), s')
    ensures s'.scheduler == Idle && s'.queue == queue' && s'.rows == rows'
    ensures s'.routines == if started.Some? then s.routines[started.value.req.id := started.value] else s.routines
  {
    var steps := StepsOf(s.queue, faults, choice);
    var s1 := NextScheduler(cfg, s, Peek);
    if s.queue == [] {
      s' := s1;
      TakesOne(cfg, s, Peek, s');
    } else {
      var s2 := NextScheduler(cfg, s1, ReadInstances(faults.instancesOk));
      if !faults.instancesOk {
        s' := s2;
        TakesOne(cfg, s1, steps[1], s');
        TakesMore(cfg, s, steps, s');
      } else {
        var readRows := ReadRows(faults.rowsOk, if faults.rowsOk then choice else None);
        var s3 := NextScheduler(cfg, s2, readRows);
        if !faults.rowsOk || choice.None? {
          s' := s3;
          TakesOne(cfg, s2, readRows, s');
        } else {
          var s4 := NextScheduler(cfg, s3, Insert(faults.insertOk));
          if !faults.insertOk {
            s' := s4;
            TakesOne(cfg, s3, steps[3], s');
          } else {
            s' := NextScheduler(cfg, s4, Pop);
            TakesOne(cfg, s4, Pop, s');
            TakesMore(cfg, s3, [Insert(true), Pop], s');
          }
          TakesMore(cfg, s2, steps[2..], s');
        }
        TakesMore(cfg, s1, steps[1..], s');
        TakesMore(cfg, s, steps, s');
      }
    }
  }

  lemma TakesOne(cfg: Config, s: State, step: SchedulerStep, s': State)
    requires SchedulerEnabled(cfg, s, step) && s' == NextScheduler(cfg, s, step)
    ensures Takes(cfg, s, [step], s')
  {
    assert [step][1..] == [];
  }

  lemma TakesMore(cfg: Config, s: State, steps: seq<SchedulerStep>, s': State)
    requires steps != [] && SchedulerEnabled(cfg, s, steps[0])
    requires Takes(cfg, NextScheduler(cfg, s, steps[0]), steps[1..], s')
    ensures Takes(cfg, s, steps, s')
  {}
}
