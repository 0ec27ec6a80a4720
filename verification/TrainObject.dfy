/** The training action as an object whose fields the calls update one after another. */
module TrainObject {
  import opened Options
  import opened TrainProtocol

  class TrainAction {
    const initJobId: Option<string>
    const initTaskId: Option<string>
    const isIncremental: bool
    const lastTaskStep: Option<int>
    const extras: Dict
    var jobId: Option<string>
    var taskId: Option<string>
    var input: Option<Dict>
    var result: Option<Dict>
    var status: Option<Status>
    var progress: int
    /** Accepted replies and polls; bookkeeping for the specification only. */
    ghost var log: seq<Call>

    ghost function State(): Action
      reads this
    {
      Action(initJobId, initTaskId, isIncremental, lastTaskStep, extras, jobId, taskId, input, result, status, progress)
    }

    /**
     * A new action; an incremental one takes over the job of the task it continues when the server
     * tells of one trained in the same mode.
     */
    constructor (job: Option<string>, task: Option<string>, step: Option<int>, extras: Dict,
                 previousJob: Option<Option<string>>)
      ensures State() ==
        Action(job, task, task.Some?, step, extras, if task.Some? && previousJob.Some? then previousJob.value else job,
               None, None, None, None, 0)
      ensures log == [] && New(State())
    {
      initJobId, initTaskId, lastTaskStep, isIncremental := job, task, step, task.Some?;
      this.extras := extras;
      jobId := if task.Some? && previousJob.Some? then previousJob.value else job;
      taskId, input, result, status, progress, log := None, None, None, None, 0, [];
    }

    /** A new object from what was written down. */
    constructor FromMeta(m: Meta, ghost log: seq<Call>)
      ensures State() == Load(m) && this.log == log
    {
      initJobId, initTaskId, lastTaskStep, extras := m.initJobId, m.initTaskId, None, map[];
      jobId, taskId, isIncremental := m.jobId, m.taskId, m.isIncremental;
      input, result, status, progress := m.input, m.result, m.status, m.progress;
      this.log := log;
    }

    /** What is written down brings back all but the checkpoint step and the extras. */
    method ToMeta() returns (m: Meta)
      ensures m == Persist(State()) && Load(m) == State().(lastTaskStep := None, extras := map[])
    {
      m := Meta(initJobId, initTaskId, isIncremental, jobId, taskId, input, result, status, progress);
    }

    method WaitModelTrained(polls: seq<Reply<Status>>) returns (outcome: Result<Dict>)
      requires taskId.Some?
      modifies this`status, this`progress, this`log
      ensures Step(State(), log, outcome) == Wait(old(State()), old(log), polls)
    {
      ghost var a0, log0 := State(), log;
      var i := 0;
      assert polls[0..] == polls;
      while i < |polls|
        invariant 0 <= i <= |polls|
        invariant Wait(a0, log0, polls) == Wait(State(), log, polls[i..])
      {
        assert polls[i..][1..] == polls[i + 1..];
        log := log + [Polled(taskId.value)];
        if polls[i].Failed? { return Raised; }
        var taskStatus := polls[i].value;
        status := Some(taskStatus);
        match taskStatus {
        case Finish(metrics, checkpoints) =>
          return Ok(map[METRICS := metrics, CHECKPOINTS := checkpoints]);
        case Running(jobProgress) =>
          progress := jobProgress;
        case Waiting =>
        case Blank =>
        case _ =>
          return Raised;
        }
        i := i + 1;
      }
      outcome := Raised;
    }

    method ExecInner(input: Dict, remote: Remote) returns (outcome: Result<Dict>)
      modifies this
      ensures Step(State(), log, outcome) == TrainProtocol.ExecInner(old(State()), old(log), input, remote)
    {
      if DATASETS !in input { return Raised; }
      if !Truthy(jobId) {
        if remote.job.Failed? { return Raised; }
        jobId := Some(remote.job.value);
        log := log + [JobCreated(remote.job.value)];
      }
      var increment: Option<string>, step: Option<int> := None, None;
      if isIncremental {
        increment := initTaskId;
        if lastTaskStep.Some? && lastTaskStep.value != 0 { step := lastTaskStep; }
      }
      if remote.task.Failed? { return Raised; }
      log := log + [TaskCreated(TaskRequest(jobId.value, Get(input, DATASETS), increment, step, extras), remote.task.value)];
      taskId := Some(remote.task.value);
      outcome := WaitModelTrained(remote.polls);
      if outcome.Ok? {
        var all := input + map[TASK_ID := taskId.value, JOB_ID := jobId.value] + outcome.value;
        result := Some(all);
        outcome := Ok(all);
      }
    }

    method Exec(input: Dict, remote: Remote) returns (outcome: Result<Dict>)
      modifies this
      ensures Step(State(), log, outcome) == TrainProtocol.Exec(old(State()), old(log), input, remote)
    {
      if this.input == None { this.input := Some(input); }
      outcome := ExecInner(this.input.value, remote);
    }

    method Resume(remote: Remote) returns (outcome: Result<Dict>)
      modifies this
      ensures Step(State(), log, outcome) == TrainProtocol.Resume(old(State()), old(log), remote)
    {
      if result.Some? { return Ok(result.value); }
      if taskId.Some? && jobId.Some? {
        outcome := WaitModelTrained(remote.polls);
        if outcome.Ok? {
          var all := map[TASK_ID := taskId.value, JOB_ID := jobId.value] + outcome.value;
          assert map[] + IdsOf(State()) == IdsOf(State());
          result := Some(all);
          outcome := Ok(all);
        }
      } else {
        if input == None { input := Some(map[]); }
        outcome := ExecInner(input.value, remote);
      }
    }
  }
}
