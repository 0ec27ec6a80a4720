/**
 * The training action against a remote API that may fail at any call: run once, resume any number of
 * times, be saved and loaded in between.
 */
module TrainProtocol {
  import opened Options

  /** A remote call either brings a usable reply or raises; a lost or malformed reply raises too. */
  datatype Reply<+T> = Replied(value: T) | Failed

  /** The keys the action knows, and any other. */
  datatype Key = DATASETS | TASK_ID | JOB_ID | METRICS | CHECKPOINTS | Other(name: string)

  type Dict = map<Key, string>

  datatype Status =
    | Finish(metrics: string, checkpoints: string)
    | Fail
    | Stop
    | Running(progress: int)
    | Waiting
    | Blank
    | Unknown

  /** The replies one call of exec or resume meets; it is killed when the polls run out. */
  datatype Remote = Remote(job: Reply<string>, task: Reply<string>, polls: seq<Reply<Status>>)

  /** The accepted replies and the polls sent, in order. */
  datatype Call = JobCreated(jobId: string) | TaskCreated(request: TaskRequest, taskId: string) | Polled(taskId: string)

  datatype TaskRequest = TaskRequest(
    jobId: string, datasets: Option<string>, incrementTaskId: Option<string>, incrementStep: Option<int>, extras: Dict)

  datatype Action = Action(
    initJobId: Option<string>, initTaskId: Option<string>, isIncremental: bool, lastTaskStep: Option<int>, extras: Dict,
    jobId: Option<string>, taskId: Option<string>, input: Option<Dict>, result: Option<Dict>,
    status: Option<Status>, progress: int)

  datatype Step = Step(action: Action, log: seq<Call>, outcome: Result<Dict>)

  /** Python takes None and the empty string for false. */
  predicate Truthy(id: Option<string>) { id.Some? && id.value != "" }

  // ---- the operations ----

  /** Polling until the task ends, in the order of the replies. */
  function Wait(a: Action, log: seq<Call>, polls: seq<Reply<Status>>): (s: Step)
    requires a.taskId.Some?
    decreases |polls|
  {
    if polls == [] then Step(a, log, Raised)
    else
      var polled := log + [Polled(a.taskId.value)];
      match polls[0]
      case Failed => Step(a, polled, Raised)
      case Replied(status) =>
        var seen := a.(status := Some(status));
        match status
        case Finish(metrics, checkpoints) =>
          Step(seen, polled, Ok(map[METRICS := metrics, CHECKPOINTS := checkpoints]))
        case Running(progress) => Wait(seen.(progress := progress), polled, polls[1..])
        case Waiting => Wait(seen, polled, polls[1..])
        case Blank => Wait(seen, polled, polls[1..])
        case _ => Step(seen, polled, Raised)
  }

  function Get(d: Dict, key: Key): Option<string> { if key in d then Some(d[key]) else None }

  function RequestFor(a: Action, input: Dict): TaskRequest
    requires a.jobId.Some?
  {
    TaskRequest(a.jobId.value,
                Get(input, DATASETS),
                if a.isIncremental then a.initTaskId else None,
                if a.isIncremental && a.lastTaskStep != Some(0) then a.lastTaskStep else None,
                a.extras)
  }

  function IdsOf(a: Action): Dict
    requires a.taskId.Some? && a.jobId.Some?
  {
    map[TASK_ID := a.taskId.value, JOB_ID := a.jobId.value]
  }

  /** The polling and the result it sets; `prefix` is what goes into the result before the ids. */
  function Finishing(a: Action, log: seq<Call>, prefix: Dict, polls: seq<Reply<Status>>): Step
    requires a.taskId.Some? && a.jobId.Some?
  {
    var s := Wait(a, log, polls);
    match s.outcome
    case Raised => s
    case Ok(output) =>
      var result := prefix + IdsOf(a) + output;
      Step(s.action.(result := Some(result)), s.log, Ok(result))
  }

  function CreateAndWait(a: Action, log: seq<Call>, input: Dict, remote: Remote): Step
    requires a.jobId.Some?
  {
    match remote.task
    case Failed => Step(a, log, Raised)
    case Replied(taskId) =>
      Finishing(a.(taskId := Some(taskId)), log + [TaskCreated(RequestFor(a, input), taskId)], input, remote.polls)
  }

  function ExecInner(a: Action, log: seq<Call>, input: Dict, remote: Remote): Step {
    if DATASETS !in input then Step(a, log, Raised)
    else if Truthy(a.jobId) then CreateAndWait(a, log, input, remote)
    else
      match remote.job
      case Failed => Step(a, log, Raised)
      case Replied(jobId) => CreateAndWait(a.(jobId := Some(jobId)), log + [JobCreated(jobId)], input, remote)
  }

  /** exec keeps the first input it ever saw. */
  function Exec(a: Action, log: seq<Call>, input: Dict, remote: Remote): Step {
    var kept := if a.input.Some? then a.input.value else input;
    ExecInner(a.(input := Some(kept)), log, kept, remote)
  }

  function Resume(a: Action, log: seq<Call>, remote: Remote): Step {
    if a.result.Some? then Step(a, log, Ok(a.result.value))
    else if a.taskId.Some? && a.jobId.Some? then Finishing(a, log, map[], remote.polls)
    else
      var kept := if a.input.Some? then a.input.value else map[];
      ExecInner(a.(input := Some(kept)), log, kept, remote)
  }

  /** What is written down: constructor arguments and the fields of the run. */
  datatype Meta = Meta(initJobId: Option<string>, initTaskId: Option<string>, isIncremental: bool,
    jobId: Option<string>, taskId: Option<string>, input: Option<Dict>, result: Option<Dict>,
    status: Option<Status>, progress: int)

  function Persist(a: Action): Meta {
    Meta(a.initJobId, a.initTaskId, a.isIncremental, a.jobId, a.taskId, a.input, a.result, a.status, a.progress)
  }

  /** Loading builds a new action; neither the checkpoint step nor the extras were written down. */
  function Load(m: Meta): Action {
    Action(m.initJobId, m.initTaskId, m.isIncremental, None, map[],
           m.jobId, m.taskId, m.input, m.result, m.status, m.progress)
  }

  // ---- runs ----

  datatype Op = ExecOp(input: Dict, remote: Remote) | ResumeOp(remote: Remote) | Reload

  function Apply(a: Action, log: seq<Call>, op: Op): Step {
    match op
    case ExecOp(input, remote) => Exec(a, log, input, remote)
    case ResumeOp(remote) => Resume(a, log, remote)
    case Reload => Step(Load(Persist(a)), log, Raised)
  }

  /** A new action before anything was called on it. */
  predicate New(a: Action) {
    a.taskId == None && a.input == None && a.result == None
  }

  function Run(a: Action, ops: seq<Op>): Step {
    if ops == [] then Step(a, [], Raised)
    else
      var n := |ops| - 1;
      var before := Run(a, ops[..n]);
      Apply(before.action, before.log, ops[n])
  }

  function Execs(ops: seq<Op>): nat {
    if ops == [] then 0
    else
      var n := |ops| - 1;
      Execs(ops[..n]) + if ops[n].ExecOp? then 1 else 0
  }

  function JobCreations(log: seq<Call>): nat {
    if log == [] then 0
    else
      var n := |log| - 1;
      JobCreations(log[..n]) + if log[n].JobCreated? then 1 else 0
  }

  function TaskCreations(log: seq<Call>): nat {
    if log == [] then 0
    else
      var n := |log| - 1;
      TaskCreations(log[..n]) + if log[n].TaskCreated? then 1 else 0
  }

  /** Every task and every poll in the log is about this task. */
  ghost predicate OnlyTask(log: seq<Call>, taskId: Option<string>) {
    forall c :: c in log ==>
      (c.TaskCreated? ==> taskId == Some(c.taskId)) && (c.Polled? ==> taskId == Some(c.taskId))
  }

  // ---- what every run keeps ----

  /** `hadJob`: the action was built with a job id; `started`: exec has been called. */
  ghost predicate Inv(a: Action, log: seq<Call>, hadJob: bool, started: bool) {
    && (JobCreated("") !in log ==> JobCreations(log) <= if Truthy(a.jobId) then 1 else 0)
    && (hadJob ==> Truthy(a.jobId) && JobCreations(log) == 0)
    && TaskCreations(log) == (if a.taskId.Some? then 1 else 0)
    && OnlyTask(log, a.taskId)
    && (a.taskId.Some? ==> a.jobId.Some? && started)
    && (a.result.Some? ==> a.taskId.Some?)
    && (!started ==> a.input == None || a.input == Some(map[]))
  }

  lemma {:induction false} CreationsMore(log: seq<Call>, c: Call)
    ensures JobCreations(log + [c]) == JobCreations(log) + if c.JobCreated? then 1 else 0
    ensures TaskCreations(log + [c]) == TaskCreations(log) + if c.TaskCreated? then 1 else 0
  {
    assert (log + [c])[..|log|] == log;
  }

  /** One poll and what it writes into the action. */
  lemma {:induction false} PollKeepsInv(a: Action, log: seq<Call>, hadJob: bool, status: Option<Status>, progress: int)
    requires a.taskId.Some? && Inv(a, log, hadJob, true)
    ensures Inv(a.(status := status, progress := progress), log + [Polled(a.taskId.value)], hadJob, true)
    ensures JobCreations(log + [Polled(a.taskId.value)]) == JobCreations(log)
  {
    CreationsMore(log, Polled(a.taskId.value));
  }

  lemma {:induction false} WaitKeepsInv(a: Action, log: seq<Call>, hadJob: bool, polls: seq<Reply<Status>>)
    requires a.taskId.Some? && Inv(a, log, hadJob, true)
    ensures var s := Wait(a, log, polls);
      && Inv(s.action, s.log, hadJob, true)
      && s.action == a.(status := s.action.status, progress := s.action.progress)
      && JobCreations(s.log) == JobCreations(log)
    decreases |polls|
  {
    hide Inv, JobCreations;
    if polls != [] {
      var polled := log + [Polled(a.taskId.value)];
      PollKeepsInv(a, log, hadJob, a.status, a.progress);
      if polls[0].Replied? {
        var status := polls[0].value;
        var seen := a.(status := Some(status), progress := if status.Running? then status.progress else a.progress);
        PollKeepsInv(a, log, hadJob, seen.status, seen.progress);
        if status.Running? || status.Waiting? || status.Blank? {
          WaitKeepsInv(seen, polled, hadJob, polls[1..]);
        }
      }
    }
  }

  lemma {:induction false} CreateKeepsInv(a: Action, log: seq<Call>, hadJob: bool, input: Dict, remote: Remote)
    requires a.jobId.Some? && a.taskId == None && Inv(a, log, hadJob, true)
    ensures var s := CreateAndWait(a, log, input, remote);
      Inv(s.action, s.log, hadJob, true) && JobCreations(s.log) == JobCreations(log) && s.action.jobId == a.jobId
  {
    hide Inv, JobCreations;
    if remote.task.Replied? {
      var created := TaskCreated(RequestFor(a, input), remote.task.value);
      TaskKeepsInv(a, log, hadJob, created);
      var b := a.(taskId := Some(remote.task.value));
      WaitKeepsInv(b, log + [created], hadJob, remote.polls);
      var s := CreateAndWait(a, log, input, remote);
      ResultKeepsInv(Wait(b, log + [created], remote.polls).action, s.log, hadJob, s.action.result);
    }
  }

  lemma {:induction false} ResultKeepsInv(a: Action, log: seq<Call>, hadJob: bool, result: Option<Dict>)
    requires a.taskId.Some? && Inv(a, log, hadJob, true)
    ensures Inv(a.(result := result), log, hadJob, true)
  {}

  lemma {:induction false} TaskKeepsInv(a: Action, log: seq<Call>, hadJob: bool, created: Call)
    requires created.TaskCreated? && a.jobId.Some? && a.taskId == None && Inv(a, log, hadJob, true)
    ensures Inv(a.(taskId := Some(created.taskId)), log + [created], hadJob, true)
    ensures JobCreations(log + [created]) == JobCreations(log)
  {
    CreationsMore(log, created);
    NoTaskYet(log, Some(created.taskId));
  }

  lemma {:induction false} NoTaskYet(log: seq<Call>, taskId: Option<string>)
    requires OnlyTask(log, None)
    ensures OnlyTask(log, taskId)
  {}

  lemma {:induction false} ExecInnerKeepsInv(a: Action, log: seq<Call>, hadJob: bool, input: Dict, remote: Remote)
    requires a.taskId == None && Inv(a, log, hadJob, true)
    ensures var s := ExecInner(a, log, input, remote); Inv(s.action, s.log, hadJob, true)
  {
    if DATASETS in input {
      if Truthy(a.jobId) {
        CreateKeepsInv(a, log, hadJob, input, remote);
      } else if remote.job.Replied? {
        var created := JobCreated(remote.job.value);
        CreationsMore(log, created);
        CreateKeepsInv(a.(jobId := Some(remote.job.value)), log + [created], hadJob, input, remote);
      }
    }
  }

  /** One operation; only the first exec may come without a task, later calls are resumes. */
  lemma {:induction false} ApplyKeepsInv(a: Action, log: seq<Call>, hadJob: bool, started: bool, op: Op)
    requires Inv(a, log, hadJob, started)
    requires op.ExecOp? ==> !started
    ensures Inv(Apply(a, log, op).action, Apply(a, log, op).log, hadJob, started || op.ExecOp?)
  {
    match op
    case ExecOp(input, remote) =>
      var kept := if a.input.Some? then a.input.value else input;
      ExecInnerKeepsInv(a.(input := Some(kept)), log, hadJob, kept, remote);
    case ResumeOp(remote) =>
      if a.result == None {
        if a.taskId.Some? {
          WaitKeepsInv(a, log, hadJob, remote.polls);
        } else {
          var kept: Dict := if a.input.Some? then a.input.value else map[];
          if started {
            ExecInnerKeepsInv(a.(input := Some(kept)), log, hadJob, kept, remote);
          } else {
            assert kept == map[];
          }
        }
      }
    case Reload =>
  }

  lemma {:induction false} RunKeepsInv(a: Action, ops: seq<Op>)
    requires New(a) && Execs(ops) <= 1
    ensures Inv(Run(a, ops).action, Run(a, ops).log, Truthy(a.jobId), Execs(ops) == 1)
  {
    if ops != [] {
      var n := |ops| - 1;
      RunKeepsInv(a, ops[..n]);
      var before := Run(a, ops[..n]);
      ApplyKeepsInv(before.action, before.log, Truthy(a.jobId), Execs(ops[..n]) == 1, ops[n]);
    }
  }

  // ---- the theorems ----

  /**
   * After one exec and any number of resumes and reloads, in any order and with any replies, at most
   * one task was created, every poll is about that task, and at most one job was created, none at all
   * for an action built with a job id. The bound on jobs needs that no accepted job id is empty.
   */
  lemma {:induction false} CreatedAtMostOnce(a: Action, ops: seq<Op>)
    requires New(a) && Execs(ops) <= 1
    ensures var s := Run(a, ops);
      && TaskCreations(s.log) <= 1
      && OnlyTask(s.log, s.action.taskId)
      && (JobCreated("") !in s.log ==> JobCreations(s.log) <= 1)
      && (Truthy(a.jobId) ==> JobCreations(s.log) == 0)
  {
    RunKeepsInv(a, ops);
  }

  /** A job id that is empty counts as none: the job is created again. */
  lemma {:induction false} EmptyJobIdCreatesAgain(input: Dict)
    requires DATASETS in input
    ensures exists a, ops :: New(a) && Execs(ops) == 1 && JobCreations(Run(a, ops).log) == 2
  {
    var a := Action(None, None, false, None, map[], None, None, None, None, None, 0);
    var first := ExecOp(input, Remote(Replied(""), Failed, []));
    var second := ResumeOp(Remote(Replied("job"), Failed, []));
    var ops := [first, second];
    assert ops[..1] == [first] && [first][..0] == [];
    var s1 := Apply(a, [], first);
    assert Run(a, [first]) == s1;
    assert s1.log == [] + [JobCreated("")];
    CreationsMore([], JobCreated(""));
    var s2 := Apply(s1.action, s1.log, second);
    assert s2.log == s1.log + [JobCreated("job")];
    CreationsMore(s1.log, JobCreated("job"));
    assert Run(a, ops) == s2;
    assert Execs([first]) == 1;
  }

  /** Once there is a result, everything later returns it and calls nobody. */
  lemma {:induction false} ResultStays(a: Action, ops: seq<Op>, more: seq<Op>)
    requires New(a) && Execs(ops + more) <= 1 && Run(a, ops).action.result.Some?
    ensures Run(a, ops + more).action.result == Run(a, ops).action.result
    ensures Run(a, ops + more).log == Run(a, ops).log
    ensures forall remote: Remote ::
      Resume(Run(a, ops + more).action, Run(a, ops + more).log, remote) ==
      Step(Run(a, ops + more).action, Run(a, ops).log, Ok(Run(a, ops).action.result.value))
  {
    if more == [] {
      assert ops + more == ops;
    } else {
      var front, last := more[..|more| - 1], more[|more| - 1];
      assert (ops + more)[..|ops + more| - 1] == ops + front;
      ResultStays(a, ops, front);
      ExecsPrefix(ops, front);
      RunKeepsInv(a, ops);
      assert !last.ExecOp?;
    }
  }

  lemma {:induction false} ExecsPrefix(a: seq<Op>, b: seq<Op>)
    ensures Execs(a) <= Execs(a + b)
  {
    if b == [] {
      assert a + b == a;
    } else {
      assert (a + b)[..|a + b| - 1] == a + b[..|b| - 1];
      ExecsPrefix(a, b[..|b| - 1]);
    }
  }

  /** Saving and loading keeps the protocol state and forgets the checkpoint step and the extras. */
  lemma {:induction false} LoadAfterPersist(a: Action, input: Dict)
    ensures Load(Persist(a)) == a.(lastTaskStep := None, extras := map[])
    ensures a.jobId.Some? ==>
      (RequestFor(Load(Persist(a)), input) == RequestFor(a, input) <==>
       a.extras == map[] && (a.isIncremental ==> a.lastTaskStep == None || a.lastTaskStep == Some(0)))
  {}

  /** Polls that leave the action waiting. */
  predicate KeepsWaiting(polls: seq<Reply<Status>>) {
    forall i :: 0 <= i < |polls| ==>
      polls[i].Replied? && (polls[i].value.Running? || polls[i].value.Waiting? || polls[i].value.Blank?)
  }

  /** Polling that is broken off while waiting and taken up again is polling without a break. */
  lemma {:induction false} WaitContinues(a: Action, log: seq<Call>, first: seq<Reply<Status>>, later: seq<Reply<Status>>)
    requires a.taskId.Some? && KeepsWaiting(first)
    ensures var s := Wait(a, log, first);
      && s.outcome == Raised && s.action == a.(status := s.action.status, progress := s.action.progress)
      && Wait(a, log, first + later) == Wait(s.action, s.log, later)
    decreases |first|
  {
    if first == [] {
      assert first + later == later;
    } else {
      var status := first[0].value;
      var seen := a.(status := Some(status), progress := if status.Running? then status.progress else a.progress);
      assert (first + later)[1..] == first[1..] + later;
      WaitContinues(seen, log + [Polled(a.taskId.value)], first[1..], later);
    }
  }

  /**
   * A training that is killed while waiting and resumed makes the same calls as one that is not, but
   * its result lacks the input, and so always differs from the other.
   */
  lemma {:induction false} ResumedResultLacksInput(a: Action, log: seq<Call>, input: Dict, remote: Remote,
                                                  later: seq<Reply<Status>>)
    requires New(a) && DATASETS in input && remote.task.Replied? && (Truthy(a.jobId) || remote.job.Replied?)
    requires KeepsWaiting(remote.polls)
    ensures var whole := Exec(a, log, input, remote.(polls := remote.polls + later));
      var killed := Exec(a, log, input, remote);
      var resumed := Resume(killed.action, killed.log, remote.(polls := later));
      && resumed.log == whole.log
      && (resumed.action.result.Some? <==> whole.action.result.Some?)
      && (whole.action.result.Some? ==>
            whole.action.result.value == input + resumed.action.result.value
            && DATASETS !in resumed.action.result.value)
  {
    var b := a.(input := Some(input));
    var jobbed := if Truthy(b.jobId) then b else b.(jobId := Some(remote.job.value));
    var log1 := if Truthy(b.jobId) then log else log + [JobCreated(remote.job.value)];
    var tasked := jobbed.(taskId := Some(remote.task.value));
    var log2 := log1 + [TaskCreated(RequestFor(jobbed, input), remote.task.value)];
    WaitContinues(tasked, log2, remote.polls, later);
    var killed := Wait(tasked, log2, remote.polls);
    assert Exec(a, log, input, remote) == killed;
    var s := Wait(killed.action, killed.log, later);
    WaitKeepsFields(killed.action, killed.log, later);
    if s.outcome.Ok? {
      var ids, output := IdsOf(tasked), s.outcome.value;
      PrefixFirst(input, ids, output);
    }
  }

  lemma {:induction false} PrefixFirst(input: Dict, ids: Dict, output: Dict)
    ensures input + ids + output == input + (map[] + ids + output)
  {}

  lemma {:induction false} WaitKeepsFields(a: Action, log: seq<Call>, polls: seq<Reply<Status>>)
    requires a.taskId.Some?
    ensures var s := Wait(a, log, polls);
      && s.action == a.(status := s.action.status, progress := s.action.progress)
      && (s.outcome.Ok? ==> s.outcome.value.Keys == {METRICS, CHECKPOINTS})
    decreases |polls|
  {
    if polls != [] && polls[0].Replied? {
      var status := polls[0].value;
      var seen := a.(status := Some(status), progress := if status.Running? then status.progress else a.progress);
      if status.Running? || status.Waiting? || status.Blank? {
        WaitKeepsFields(seen, log + [Polled(a.taskId.value)], polls[1..]);
      }
    }
  }

  /** Resuming an action that was never run fixes an empty input: every exec after it raises. */
  lemma {:induction false} ResumeBeforeExec(a: Action, log: seq<Call>, remote: Remote, input: Dict, later: Remote)
    requires New(a)
    ensures var resumed := Resume(a, log, remote);
      && resumed.outcome == Raised && resumed.log == log
      && Exec(resumed.action, log, input, later) == Step(resumed.action, log, Raised)
  {}
}
