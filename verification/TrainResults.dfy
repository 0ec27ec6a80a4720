/** What a training action brings back, what it asks for, and what it shows while it waits. */
module TrainResults {
  import opened Options
  import opened TrainProtocol

  // ---- polling ----

  /** Polls of this task, so many of them. */
  function Polls(taskId: string, n: nat): seq<Call> {
    seq(n, i requires 0 <= i < n => Polled(taskId))
  }

  /** The last progress the polls tell of. */
  function LastProgress(progress: int, polls: seq<Reply<Status>>): int {
    if polls == [] then progress
    else
      var n := |polls| - 1;
      if polls[n].Replied? && polls[n].value.Running? then polls[n].value.progress else LastProgress(progress, polls[..n])
  }

  function LastStatus(status: Option<Status>, polls: seq<Reply<Status>>): Option<Status> {
    if polls != [] && polls[|polls| - 1].Replied? then Some(polls[|polls| - 1].value) else status
  }

  /** While the task is waiting, status and progress are those of the last poll that tells of them. */
  lemma {:induction false} Waited(a: Action, log: seq<Call>, polls: seq<Reply<Status>>, later: seq<Reply<Status>>)
    requires a.taskId.Some? && KeepsWaiting(polls)
    ensures Wait(a, log, polls + later) ==
      Wait(a.(status := LastStatus(a.status, polls), progress := LastProgress(a.progress, polls)),
           log + Polls(a.taskId.value, |polls|), later)
    decreases |polls|
  {
    if polls == [] {
      assert polls + later == later && log + Polls(a.taskId.value, 0) == log;
    } else {
      var n := |polls| - 1;
      var front, last := polls[..n], polls[n];
      assert polls + later == front + ([last] + later);
      Waited(a, log, front, [last] + later);
      assert ([last] + later)[1..] == later;
      assert log + Polls(a.taskId.value, n) + [Polled(a.taskId.value)] == log + Polls(a.taskId.value, |polls|);
    }
  }

  /** A reply after which the task is not polled again. */
  predicate Ends(reply: Reply<Status>) {
    reply.Failed? || !(reply.value.Running? || reply.value.Waiting? || reply.value.Blank?)
  }

  /** How the polling can end: with the output of the task, with its failure, or with a reply that does not come. */
  lemma {:induction false} WaitEnds(a: Action, log: seq<Call>, polls: seq<Reply<Status>>, last: Reply<Status>,
                                   rest: seq<Reply<Status>>)
    requires a.taskId.Some? && KeepsWaiting(polls) && Ends(last)
    ensures var s := Wait(a, log, polls + ([last] + rest));
      && s.log == log + Polls(a.taskId.value, |polls| + 1)
      && s.action == a.(status := if last.Replied? then Some(last.value) else LastStatus(a.status, polls),
                        progress := LastProgress(a.progress, polls))
      && (s.outcome.Ok? <==> last.Replied? && last.value.Finish?)
      && (s.outcome.Ok? ==> s.outcome.value == map[METRICS := last.value.metrics] + map[CHECKPOINTS := last.value.checkpoints])
  {
    Waited(a, log, polls, [last] + rest);
    assert ([last] + rest)[0] == last;
    assert log + Polls(a.taskId.value, |polls|) + [Polled(a.taskId.value)] == log + Polls(a.taskId.value, |polls| + 1);
  }

  // ---- results ----

  /** A result tells the metrics and checkpoints the task ended with, its id, and the id of its job. */
  ghost predicate Tells(result: Dict, metrics: string, checkpoints: string, taskId: string, jobId: string) {
    && {METRICS, CHECKPOINTS, TASK_ID, JOB_ID} <= result.Keys
    && result[METRICS] == metrics && result[CHECKPOINTS] == checkpoints
    && result[TASK_ID] == taskId && result[JOB_ID] == jobId
  }

  /** And it holds every other key of the input, and no more. */
  ghost predicate KeepsInput(result: Dict, input: Dict) {
    forall k :: k !in {METRICS, CHECKPOINTS, TASK_ID, JOB_ID} ==>
      (k in result <==> k in input) && (k in input ==> result[k] == input[k])
  }

  /** The result is the outcome of the call and is kept in the action. */
  ghost predicate Brings(s: Step, result: Dict) { s.outcome == Ok(result) && s.action.result == Some(result) }

  lemma {:induction false} FinishingResult(a: Action, log: seq<Call>, prefix: Dict, polls: seq<Reply<Status>>,
                                          metrics: string, checkpoints: string, rest: seq<Reply<Status>>)
    returns (result: Dict)
    requires a.taskId.Some? && a.jobId.Some? && KeepsWaiting(polls)
    ensures Brings(Finishing(a, log, prefix, polls + ([Replied(Finish(metrics, checkpoints))] + rest)), result)
    ensures Tells(result, metrics, checkpoints, a.taskId.value, a.jobId.value) && KeepsInput(result, prefix)
  {
    hide Wait, Tells, KeepsInput;
    WaitEnds(a, log, polls, Replied(Finish(metrics, checkpoints)), rest);
    result := Merged(a, prefix, metrics, checkpoints);
  }

  lemma {:induction false} Merged(a: Action, prefix: Dict, metrics: string, checkpoints: string) returns (result: Dict)
    requires a.taskId.Some? && a.jobId.Some?
    ensures result == prefix + IdsOf(a) + (map[METRICS := metrics] + map[CHECKPOINTS := checkpoints])
    ensures Tells(result, metrics, checkpoints, a.taskId.value, a.jobId.value) && KeepsInput(result, prefix)
  {
    result := prefix + IdsOf(a) + (map[METRICS := metrics] + map[CHECKPOINTS := checkpoints]);
  }

  /** The input a call works with: the first one that was given. */
  function Input(a: Action, input: Dict): Dict { if a.input.Some? then a.input.value else input }

  /** The job a call works with: the one the action has, if its id is not empty, or else the one created. */
  function Job(a: Action, remote: Remote): string
    requires Truthy(a.jobId) || remote.job.Replied?
  {
    if Truthy(a.jobId) then a.jobId.value else remote.job.value
  }

  /** An exec whose task ends well brings metrics, checkpoints and ids, and the input beside them. */
  lemma {:induction false} ExecResult(a: Action, log: seq<Call>, input: Dict, remote: Remote, polls: seq<Reply<Status>>,
                                     metrics: string, checkpoints: string, rest: seq<Reply<Status>>)
    returns (result: Dict)
    requires DATASETS in Input(a, input) && (Truthy(a.jobId) || remote.job.Replied?) && remote.task.Replied?
    requires KeepsWaiting(polls) && remote.polls == polls + ([Replied(Finish(metrics, checkpoints))] + rest)
    ensures Brings(Exec(a, log, input, remote), result)
    ensures Tells(result, metrics, checkpoints, remote.task.value, Job(a, remote)) && KeepsInput(result, Input(a, input))
  {
    hide Finishing;
    var kept := Input(a, input);
    var b := a.(input := Some(kept), jobId := Some(Job(a, remote)));
    var jobLog := if Truthy(a.jobId) then log else log + [JobCreated(remote.job.value)];
    assert Truthy(a.jobId) ==> a.jobId == Some(a.jobId.value);
    assert Exec(a, log, input, remote) == CreateAndWait(b, jobLog, kept, remote);
    result := FinishingResult(b.(taskId := Some(remote.task.value)), jobLog + [TaskCreated(RequestFor(b, kept), remote.task.value)],
                              kept, polls, metrics, checkpoints, rest);
  }

  /** A resume of a task that is there brings the same four, and nothing else. */
  lemma {:induction false} ResumeResult(a: Action, log: seq<Call>, remote: Remote, polls: seq<Reply<Status>>,
                                       metrics: string, checkpoints: string, rest: seq<Reply<Status>>)
    returns (result: Dict)
    requires a.result == None && a.taskId.Some? && a.jobId.Some?
    requires KeepsWaiting(polls) && remote.polls == polls + ([Replied(Finish(metrics, checkpoints))] + rest)
    ensures Brings(Resume(a, log, remote), result)
    ensures Tells(result, metrics, checkpoints, a.taskId.value, a.jobId.value) && KeepsInput(result, map[])
  {
    hide Finishing;
    result := FinishingResult(a, log, map[], polls, metrics, checkpoints, rest);
  }

  /** Without a task a resume is an exec with the input the action has. */
  lemma {:induction false} ResumeIsExec(a: Action, log: seq<Call>, remote: Remote)
    requires a.result == None && (a.taskId == None || a.jobId == None)
    ensures Resume(a, log, remote) == Exec(a, log, map[], remote)
  {}

  // ---- requests ----

  /**
   * What is asked for: a task of this job on these datasets, with the extras; of an incremental training also
   * the task before it and its step.
   */
  ghost predicate AsksFor(request: TaskRequest, a: Action, jobId: string, datasets: string) {
    && request.jobId == jobId && request.datasets == Some(datasets) && request.extras == a.extras
    && (a.isIncremental ==> request.incrementTaskId == a.initTaskId)
    && (a.isIncremental && a.lastTaskStep != Some(0) ==> request.incrementStep == a.lastTaskStep)
    && (a.isIncremental && a.lastTaskStep == Some(0) ==> request.incrementStep == None)
    && (!a.isIncremental ==> request.incrementTaskId == None && request.incrementStep == None)
  }

  /** An exec creates a job unless it has one, then a task for it, and then polls that task and no other. */
  lemma {:induction false} ExecCalls(a: Action, log: seq<Call>, input: Dict, remote: Remote) returns (request: TaskRequest, n: nat)
    requires DATASETS in Input(a, input) && (Truthy(a.jobId) || remote.job.Replied?) && remote.task.Replied?
    ensures AsksFor(request, a, Job(a, remote), Input(a, input)[DATASETS])
    ensures Exec(a, log, input, remote).log ==
      log + (if Truthy(a.jobId) then [] else [JobCreated(remote.job.value)])
          + [TaskCreated(request, remote.task.value)] + Polls(remote.task.value, n)
  {
    hide Wait;
    var kept := Input(a, input);
    var b := a.(input := Some(kept), jobId := Some(Job(a, remote)));
    var jobLog := log + if Truthy(a.jobId) then [] else [JobCreated(remote.job.value)];
    assert Truthy(a.jobId) ==> a.jobId == Some(a.jobId.value);
    request := RequestFor(b, kept);
    assert log + [] == log;
    assert Exec(a, log, input, remote) == CreateAndWait(b, jobLog, kept, remote);
    n := OnlyPolls(b.(taskId := Some(remote.task.value)), jobLog + [TaskCreated(request, remote.task.value)], remote.polls);
  }

  lemma {:induction false} OnlyPolls(a: Action, log: seq<Call>, polls: seq<Reply<Status>>) returns (n: nat)
    requires a.taskId.Some?
    ensures Wait(a, log, polls).log == log + Polls(a.taskId.value, n)
    decreases |polls|
  {
    n := 0;
    if polls == [] {
      assert log + Polls(a.taskId.value, 0) == log;
    } else {
      var id := a.taskId.value;
      assert log + [Polled(id)] == log + Polls(id, 1);
      n := 1;
      if !Ends(polls[0]) {
        var status := polls[0].value;
        var seen := a.(status := Some(status), progress := if status.Running? then status.progress else a.progress);
        n := OnlyPolls(seen, log + [Polled(id)], polls[1..]);
        assert log + [Polled(id)] + Polls(id, n) == log + Polls(id, n + 1);
        n := n + 1;
      }
    }
  }

  /** Without datasets, without a job or without a task the call raises, with what was there until then. */
  lemma {:induction false} ExecRaises(a: Action, log: seq<Call>, input: Dict, remote: Remote)
    ensures var s, b := Exec(a, log, input, remote), a.(input := Some(Input(a, input)));
      && (DATASETS !in Input(a, input) ==> s == Step(b, log, Raised))
      && (DATASETS in Input(a, input) && !Truthy(a.jobId) && remote.job.Failed? ==> s == Step(b, log, Raised))
      && (DATASETS in Input(a, input) && !Truthy(a.jobId) && remote.job.Replied? && remote.task.Failed? ==>
            s == Step(b.(jobId := Some(remote.job.value)), log + [JobCreated(remote.job.value)], Raised))
      && (DATASETS in Input(a, input) && Truthy(a.jobId) && remote.task.Failed? ==> s == Step(b, log, Raised))
  {}
}
