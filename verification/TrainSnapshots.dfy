/**
 * The training action under a pipeline that saves it every few seconds while its calls run: after a
 * crash, any state the action ever passed through may be the one that is loaded.
 */
module TrainSnapshots {
  import opened Options
  import opened TrainProtocol

  // ---- the states a call passes through ----

  function WaitTrail(a: Action, polls: seq<Reply<Status>>): seq<Action>
    requires a.taskId.Some?
    decreases |polls|
  {
    if polls == [] || polls[0].Failed? then []
    else
      var seen := a.(status := Some(polls[0].value));
      match polls[0].value
      case Running(progress) =>
        var next := seen.(progress := progress);
        [seen, next] + WaitTrail(next, polls[1..])
      case Waiting => [seen] + WaitTrail(seen, polls[1..])
      case Blank => [seen] + WaitTrail(seen, polls[1..])
      case _ => [seen]
  }

  function FinishTrail(a: Action, log: seq<Call>, prefix: Dict, polls: seq<Reply<Status>>): seq<Action>
    requires a.taskId.Some? && a.jobId.Some?
  {
    var s := Finishing(a, log, prefix, polls);
    WaitTrail(a, polls) + if s.outcome.Ok? then [s.action] else []
  }

  function CreateTrail(a: Action, log: seq<Call>, input: Dict, remote: Remote): seq<Action>
    requires a.jobId.Some?
  {
    match remote.task
    case Failed => []
    case Replied(taskId) =>
      var tasked := a.(taskId := Some(taskId));
      [tasked] + FinishTrail(tasked, log + [TaskCreated(RequestFor(a, input), taskId)], input, remote.polls)
  }

  function InnerTrail(a: Action, log: seq<Call>, input: Dict, remote: Remote): seq<Action> {
    if DATASETS !in input then []
    else if Truthy(a.jobId) then CreateTrail(a, log, input, remote)
    else
      match remote.job
      case Failed => []
      case Replied(jobId) =>
        var jobbed := a.(jobId := Some(jobId));
        [jobbed] + CreateTrail(jobbed, log + [JobCreated(jobId)], input, remote)
  }

  /** The state after every assignment a call makes to the action's fields, in order. */
  function Trail(a: Action, log: seq<Call>, op: Op): seq<Action> {
    match op
    case Reload => [Load(Persist(a))]
    case ResumeOp(remote) =>
      if a.result.Some? then []
      else if a.taskId.Some? && a.jobId.Some? then FinishTrail(a, log, map[], remote.polls)
      else [Working(a, op)] + InnerTrail(Working(a, op), log, WorkingInput(a, op).value, remote)
    case ExecOp(_, remote) =>
      [Working(a, op)] + InnerTrail(Working(a, op), log, WorkingInput(a, op).value, remote)
  }

  /** The input a call works with, if it goes as far as creating anything. */
  function WorkingInput(a: Action, op: Op): Option<Dict> {
    match op
    case ExecOp(input, _) => Some(if a.input.Some? then a.input.value else input)
    case ResumeOp(_) =>
      if a.result.Some? || (a.taskId.Some? && a.jobId.Some?) then None
      else Some(if a.input.Some? then a.input.value else map[])
    case Reload => None
  }

  /** The action once it has fixed that input. */
  function Working(a: Action, op: Op): Action {
    if WorkingInput(a, op).Some? then a.(input := WorkingInput(a, op)) else a
  }

  // ---- runs with crashes ----

  /**
   * A call, or a crash after which a saved state is loaded. The saving thread reads the fields one after
   * the other, so the ids, the input and the result may each be of a later moment than the one before.
   */
  datatype Event = Do(op: Op) | Restore(job: nat, task: nat, input: nat, result: nat)

  datatype World = World(action: Action, log: seq<Call>, saved: seq<Action>)

  function Happen(w: World, e: Event): World {
    match e
    case Do(op) =>
      var s := Apply(w.action, w.log, op);
      World(s.action, s.log, w.saved + Trail(w.action, w.log, op))
    case Restore(job, task, input, result) =>
      if !(job <= task <= input <= result < |w.saved|) then w
      else
        var loaded := Load(Persist(Snapshot(w.saved[job], w.saved[task], w.saved[input], w.saved[result])));
        World(loaded, w.log, w.saved + [loaded])
  }

  /** What is written down while the action goes through these states. */
  function Snapshot(job: Action, task: Action, input: Action, result: Action): Action {
    task.(jobId := job.jobId, input := input.input, result := result.result)
  }

  function Live(a: Action, events: seq<Event>): World {
    if events == [] then World(a, [], [a])
    else
      var n := |events| - 1;
      Happen(Live(a, events[..n]), events[n])
  }

  function Execs(events: seq<Event>): nat {
    if events == [] then 0
    else
      var n := |events| - 1;
      Execs(events[..n]) + if events[n].Do? && events[n].op.ExecOp? then 1 else 0
  }

  // ---- jobs and tasks alike ----

  datatype Kind = JobKind | TaskKind

  /** The action can go on with a job, or with a task and its job; an empty job id counts as no job. */
  predicate Has(a: Action, kind: Kind) {
    if kind.JobKind? then Truthy(a.jobId) else a.taskId.Some? && a.jobId.Some?
  }

  function Creations(log: seq<Call>, kind: Kind): nat {
    if kind.JobKind? then JobCreations(log) else TaskCreations(log)
  }

  /** The call asks for a job, or for a task, and gets a usable reply. */
  predicate Accepts(a: Action, op: Op, kind: Kind) {
    var input := WorkingInput(a, op);
    && input.Some? && DATASETS in input.value
    && if kind.JobKind? then !Truthy(a.jobId) && op.remote.job.Replied?
       else (Truthy(a.jobId) || op.remote.job.Replied?) && op.remote.task.Replied?
  }

  /** The reply is a job id that is empty. */
  predicate Hollow(op: Op, kind: Kind)
    requires !op.Reload?
  {
    kind.JobKind? && op.remote.job == Replied("")
  }

  predicate AcceptsAt(w: World, e: Event, kind: Kind) { e.Do? && Accepts(w.action, e.op, kind) }

  predicate HollowAt(w: World, e: Event, kind: Kind) { AcceptsAt(w, e, kind) && Hollow(e.op, kind) }

  /** The call creates what the action has already: exec does not look at the task. */
  predicate RepeatsAt(w: World, e: Event, kind: Kind) { AcceptsAt(w, e, kind) && Has(w.action, kind) }

  /** The state that is loaded lacks what the live action had. */
  predicate LosesAt(w: World, e: Event, kind: Kind) {
    e.Restore? && Has(w.action, kind) && !Has(Happen(w, e).action, kind)
  }

  /** The action has what it lacked though nothing was created. */
  predicate GainsAt(w: World, e: Event, kind: Kind) {
    !AcceptsAt(w, e, kind) && !Has(w.action, kind) && Has(Happen(w, e).action, kind)
  }

  /** How often something happened in a run. */
  function Count(a: Action, events: seq<Event>, what: (World, Event) -> bool): nat {
    if events == [] then 0
    else
      var n := |events| - 1;
      Count(a, events[..n], what) + if what(Live(a, events[..n]), events[n]) then 1 else 0
  }

  function Losing(kind: Kind): (World, Event) -> bool { (w, e) => LosesAt(w, e, kind) }

  function Gaining(kind: Kind): (World, Event) -> bool { (w, e) => GainsAt(w, e, kind) }

  function AcceptingHollow(kind: Kind): (World, Event) -> bool { (w, e) => HollowAt(w, e, kind) }

  function Repeating(kind: Kind): (World, Event) -> bool { (w, e) => RepeatsAt(w, e, kind) }

  function Accepting(kind: Kind): (World, Event) -> bool { (w, e) => AcceptsAt(w, e, kind) }

  /** The j-th event of a run is one of these. */
  predicate Occurs(a: Action, events: seq<Event>, what: (World, Event) -> bool, j: nat)
    requires j < |events|
  {
    what(Live(a, events[..j]), events[j])
  }

  // ---- what one call creates ----

  lemma {:induction false} WaitCreatesNothing(a: Action, log: seq<Call>, polls: seq<Reply<Status>>)
    requires a.taskId.Some?
    ensures var s := Wait(a, log, polls);
      && Creations(s.log, JobKind) == Creations(log, JobKind) && Creations(s.log, TaskKind) == Creations(log, TaskKind)
      && s.action == a.(status := s.action.status, progress := s.action.progress)
    decreases |polls|
  {
    hide JobCreations, TaskCreations;
    if polls != [] {
      var polled := log + [Polled(a.taskId.value)];
      CreationsMore(log, Polled(a.taskId.value));
      if polls[0].Replied? {
        var status := polls[0].value;
        var seen := a.(status := Some(status), progress := if status.Running? then status.progress else a.progress);
        if status.Running? || status.Waiting? || status.Blank? {
          WaitCreatesNothing(seen, polled, polls[1..]);
        }
      }
    }
  }

  /** What is left of a call: these ids were created, and nothing else of weight has changed. */
  ghost predicate Created(a: Action, log: seq<Call>, s: Step, job: Option<string>, task: Option<string>) {
    && s.action.jobId == (if job.Some? then job else a.jobId)
    && s.action.taskId == (if task.Some? then task else a.taskId)
    && s.action.input == a.input
    && (s.action.result == a.result || s.action.taskId.Some?)
    && Creations(s.log, JobKind) == Creations(log, JobKind) + (if job.Some? then 1 else 0)
    && Creations(s.log, TaskKind) == Creations(log, TaskKind) + (if task.Some? then 1 else 0)
  }

  lemma {:induction false} TaskCreates(a: Action, log: seq<Call>, input: Dict, remote: Remote)
    requires a.jobId.Some?
    ensures Created(a, log, CreateAndWait(a, log, input, remote), None,
                    if remote.task.Replied? then Some(remote.task.value) else None)
  {
    hide JobCreations, TaskCreations;
    if remote.task.Replied? {
      var created := TaskCreated(RequestFor(a, input), remote.task.value);
      CreationsMore(log, created);
      WaitCreatesNothing(a.(taskId := Some(remote.task.value)), log + [created], remote.polls);
    }
  }

  lemma {:induction false} InnerCreates(a: Action, log: seq<Call>, input: Dict, remote: Remote)
    ensures DATASETS !in input ==> Created(a, log, ExecInner(a, log, input, remote), None, None)
    ensures DATASETS in input ==>
      Created(a, log, ExecInner(a, log, input, remote),
              if !Truthy(a.jobId) && remote.job.Replied? then Some(remote.job.value) else None,
              if (Truthy(a.jobId) || remote.job.Replied?) && remote.task.Replied? then Some(remote.task.value) else None)
  {
    hide CreateAndWait, JobCreations, TaskCreations;
    if DATASETS in input {
      if Truthy(a.jobId) {
        TaskCreates(a, log, input, remote);
      } else if remote.job.Replied? {
        CreationsMore(log, JobCreated(remote.job.value));
        TaskCreates(a.(jobId := Some(remote.job.value)), log + [JobCreated(remote.job.value)], input, remote);
      }
    }
  }

  /** A call creates exactly what it accepts, and sets the ids accordingly. */
  lemma {:induction false} CallCreates(a: Action, log: seq<Call>, op: Op)
    ensures Created(Working(a, op), log, Apply(a, log, op),
                    if Accepts(a, op, JobKind) then Some(op.remote.job.value) else None,
                    if Accepts(a, op, TaskKind) then Some(op.remote.task.value) else None)
  {
    hide ExecInner, JobCreations, TaskCreations;
    if WorkingInput(a, op).Some? {
      InnerCreates(Working(a, op), log, WorkingInput(a, op).value, op.remote);
    } else if op.ResumeOp? && a.result == None {
      WaitCreatesNothing(a, log, op.remote.polls);
    }
  }

  // ---- the states in between ----

  lemma {:induction false} WaitTrailStates(a: Action, polls: seq<Reply<Status>>)
    requires a.taskId.Some?
    ensures forall x :: x in WaitTrail(a, polls) ==> x == a.(status := x.status, progress := x.progress)
    decreases |polls|
  {
    if polls != [] && polls[0].Replied? {
      var status := polls[0].value;
      var seen := a.(status := Some(status), progress := if status.Running? then status.progress else a.progress);
      if status.Running? || status.Waiting? || status.Blank? {
        WaitTrailStates(seen, polls[1..]);
      }
    }
  }

  lemma {:induction false} WaitTrailEnds(a: Action, log: seq<Call>, polls: seq<Reply<Status>>)
    requires a.taskId.Some?
    ensures Last(WaitTrail(a, polls), a) == Wait(a, log, polls).action
    decreases |polls|
  {
    if polls != [] && polls[0].Replied? {
      var status := polls[0].value;
      var seen := a.(status := Some(status), progress := if status.Running? then status.progress else a.progress);
      if status.Running? || status.Waiting? || status.Blank? {
        WaitTrailEnds(seen, log + [Polled(a.taskId.value)], polls[1..]);
      }
    }
  }

  function Last(trail: seq<Action>, a: Action): Action {
    if trail == [] then a else trail[|trail| - 1]
  }

  lemma {:induction false} FinishTrailEnds(a: Action, log: seq<Call>, prefix: Dict, polls: seq<Reply<Status>>)
    requires a.taskId.Some? && a.jobId.Some?
    ensures Last(FinishTrail(a, log, prefix, polls), a) == Finishing(a, log, prefix, polls).action
  {
    WaitTrailEnds(a, log, polls);
  }

  lemma {:induction false} CreateTrailEnds(a: Action, log: seq<Call>, input: Dict, remote: Remote)
    requires a.jobId.Some?
    ensures Last(CreateTrail(a, log, input, remote), a) == CreateAndWait(a, log, input, remote).action
  {
    if remote.task.Replied? {
      FinishTrailEnds(a.(taskId := Some(remote.task.value)),
                      log + [TaskCreated(RequestFor(a, input), remote.task.value)], input, remote.polls);
    }
  }

  lemma {:induction false} InnerTrailEnds(a: Action, log: seq<Call>, input: Dict, remote: Remote)
    ensures Last(InnerTrail(a, log, input, remote), a) == ExecInner(a, log, input, remote).action
  {
    if DATASETS in input {
      if Truthy(a.jobId) {
        CreateTrailEnds(a, log, input, remote);
      } else if remote.job.Replied? {
        CreateTrailEnds(a.(jobId := Some(remote.job.value)), log + [JobCreated(remote.job.value)], input, remote);
      }
    }
  }

  /** The last state a call passes through is the one it leaves. */
  lemma {:induction false} TrailEnds(a: Action, log: seq<Call>, op: Op)
    ensures Last(Trail(a, log, op), a) == Apply(a, log, op).action
  {
    if WorkingInput(a, op).Some? {
      InnerTrailEnds(Working(a, op), log, WorkingInput(a, op).value, op.remote);
    } else if op.ResumeOp? && a.result == None {
      FinishTrailEnds(a, log, map[], op.remote.polls);
    }
  }

  /** An exec that creates both first fixes the input, then sets the job, and then the task. */
  lemma {:induction false} TrailOfExec(a: Action, log: seq<Call>, input: Dict, replies: Remote)
    requires a.input == None && !Truthy(a.jobId) && DATASETS in input && replies.job.Replied? && replies.task.Replied?
    ensures var started := a.(input := Some(input));
      var jobbed := started.(jobId := Some(replies.job.value));
      var trail := Trail(a, log, ExecOp(input, replies));
      |trail| >= 3 && trail[..3] == [started, jobbed, jobbed.(taskId := Some(replies.task.value))]
  {}

  /** A poll that tells of progress first sets the status, and then the progress. */
  lemma {:induction false} TrailOfPoll(a: Action, progress: int)
    requires a.taskId.Some?
    ensures WaitTrail(a, [Replied(Running(progress))]) ==
      [a.(status := Some(Running(progress))), a.(status := Some(Running(progress)), progress := progress)]
  {}

  /** The newest of the saved states is that of the live action. */
  lemma {:induction false} NewestIsLive(a: Action, events: seq<Event>)
    ensures Live(a, events).saved != [] && Last(Live(a, events).saved, a) == Live(a, events).action
  {
    if events != [] {
      var n := |events| - 1;
      NewestIsLive(a, events[..n]);
      hide Trail, Apply, Live;
      NewestStays(Live(a, events[..n]), events[n]);
      assert Live(a, events) == Happen(Live(a, events[..n]), events[n]) by { LiveMoreAt(a, events); }
    } else {
      NothingHappened(a);
    }
  }

  lemma {:induction false} LiveMoreAt(a: Action, events: seq<Event>)
    requires events != []
    ensures Live(a, events) == Happen(Live(a, events[..|events| - 1]), events[|events| - 1])
  {}

  lemma {:induction false} NewestStays(w: World, e: Event)
    requires w.saved != [] && w.saved[|w.saved| - 1] == w.action
    ensures var w' := Happen(w, e); w'.saved != [] && w'.saved[|w'.saved| - 1] == w'.action
  {
    hide Trail, Apply;
    if e.Do? { TrailEnds(w.action, w.log, e.op); }
  }

  /** Each field of x is as it was in a or as it is in b, and later fields are not ahead of earlier ones. */
  ghost predicate Between(x: Action, a: Action, b: Action) {
    && (x.input == a.input || x.input == b.input)
    && (x.jobId == a.jobId || x.jobId == b.jobId) && (a.jobId.Some? ==> x.jobId.Some?)
    && (x.taskId == a.taskId || (x.taskId == b.taskId && x.jobId == b.jobId)) && (a.taskId.Some? ==> x.taskId.Some?)
    && (x.result == a.result || x.taskId.Some?)
  }

  lemma {:induction false} FinishTrailBetween(a: Action, log: seq<Call>, prefix: Dict, polls: seq<Reply<Status>>)
    requires a.taskId.Some? && a.jobId.Some?
    ensures forall x :: x in FinishTrail(a, log, prefix, polls) ==>
      x.input == a.input && x.jobId == a.jobId && x.taskId == a.taskId
    ensures var b := Finishing(a, log, prefix, polls).action;
      b.input == a.input && b.jobId == a.jobId && b.taskId == a.taskId
  {
    WaitTrailStates(a, polls);
    WaitCreatesNothing(a, log, polls);
  }

  lemma {:induction false} CreateTrailBetween(a: Action, log: seq<Call>, input: Dict, remote: Remote)
    requires a.jobId.Some?
    ensures forall x :: x in CreateTrail(a, log, input, remote) ==>
      Between(x, a, CreateAndWait(a, log, input, remote).action) && x.jobId == a.jobId
    ensures CreateAndWait(a, log, input, remote).action.jobId == a.jobId
  {
    if remote.task.Replied? {
      FinishTrailBetween(a.(taskId := Some(remote.task.value)),
                         log + [TaskCreated(RequestFor(a, input), remote.task.value)], input, remote.polls);
    }
  }

  lemma {:induction false} InnerTrailBetween(a: Action, log: seq<Call>, input: Dict, remote: Remote)
    ensures forall x :: x in InnerTrail(a, log, input, remote) ==> Between(x, a, ExecInner(a, log, input, remote).action)
  {
    hide CreateTrail, CreateAndWait;
    if DATASETS in input {
      if Truthy(a.jobId) {
        CreateTrailBetween(a, log, input, remote);
      } else if remote.job.Replied? {
        CreateTrailBetween(a.(jobId := Some(remote.job.value)), log + [JobCreated(remote.job.value)], input, remote);
      }
    }
  }

  lemma {:induction false} TrailBetween(a: Action, log: seq<Call>, op: Op)
    ensures forall x :: x in Trail(a, log, op) ==> Between(x, a, Apply(a, log, op).action)
  {
    hide InnerTrail, FinishTrail, ExecInner, Finishing;
    CallCreates(a, log, op);
    if WorkingInput(a, op).Some? {
      InnerTrailBetween(Working(a, op), log, WorkingInput(a, op).value, op.remote);
    } else if op.ResumeOp? && a.result == None {
      FinishTrailBetween(a, log, map[], op.remote.polls);
    }
  }

  // ---- what every run keeps ----

  /** What holds of every state that was ever saved: nothing in it is ahead of the log. */
  ghost predicate Sound(x: Action, a: Action, log: seq<Call>) {
    && (Truthy(a.jobId) ==> Truthy(x.jobId))
    && (Truthy(x.jobId) && !Truthy(a.jobId) ==> Creations(log, JobKind) >= 1)
    && (x.taskId.Some? ==> Creations(log, TaskKind) >= 1)
  }

  ghost predicate AllSound(saved: seq<Action>, a: Action, log: seq<Call>) {
    forall k :: 0 <= k < |saved| ==> Sound(saved[k], a, log)
  }

  lemma {:induction false} CallKeepsSound(x: Action, a: Action, log: seq<Call>, op: Op)
    requires Sound(x, a, log)
    ensures Sound(Apply(x, log, op).action, a, Apply(x, log, op).log)
  {
    hide Apply, JobCreations, TaskCreations;
    CallCreates(x, log, op);
  }

  /** States stay sound while the log grows. */
  lemma {:induction false} StaySound(saved: seq<Action>, a: Action, log: seq<Call>, later: seq<Call>)
    requires AllSound(saved, a, log)
    requires Creations(log, JobKind) <= Creations(later, JobKind) && Creations(log, TaskKind) <= Creations(later, TaskKind)
    ensures AllSound(saved, a, later)
  {
    hide JobCreations, TaskCreations;
  }

  lemma {:induction false} BetweenSound(x: Action, from: Action, to: Action, a: Action, log: seq<Call>)
    requires Between(x, from, to) && Sound(from, a, log) && Sound(to, a, log)
    ensures Sound(x, a, log)
  {}

  /** After a call or a restore everything saved is sound again. */
  lemma {:induction false} HappenKeepsSound(w: World, a: Action, e: Event)
    requires Sound(w.action, a, w.log) && AllSound(w.saved, a, w.log)
    ensures var w' := Happen(w, e); Sound(w'.action, a, w'.log) && AllSound(w'.saved, a, w'.log)
  {
    match e
    case Restore(job, task, input, result) =>
      if job <= task <= input <= result < |w.saved| {
        LoadAfterPersist(Snapshot(w.saved[job], w.saved[task], w.saved[input], w.saved[result]), map[]);
      }
    case Do(op) => CallKeepsAllSound(w, a, op);
  }

  lemma {:induction false} CallKeepsAllSound(w: World, a: Action, op: Op)
    requires Sound(w.action, a, w.log) && AllSound(w.saved, a, w.log)
    ensures var w' := Happen(w, Do(op)); Sound(w'.action, a, w'.log) && AllSound(w'.saved, a, w'.log)
  {
    hide Apply, Trail, Sound, Between, JobCreations, TaskCreations;
    var s := Apply(w.action, w.log, op);
    CallCreates(w.action, w.log, op);
    CallKeepsSound(w.action, a, w.log, op);
    StaySound(w.saved, a, w.log, s.log);
    StaySound([w.action], a, w.log, s.log);
    assert [w.action][0] == w.action;
    TrailBetween(w.action, w.log, op);
    var trail := Trail(w.action, w.log, op);
    forall k | 0 <= k < |trail| ensures Sound(trail[k], a, s.log) {
      assert trail[k] in trail;
      BetweenSound(trail[k], w.action, s.action, a, s.log);
    }
  }

  lemma {:induction false} LiveIsSound(a: Action, events: seq<Event>)
    requires New(a)
    ensures var w := Live(a, events); Sound(w.action, a, w.log) && AllSound(w.saved, a, w.log)
  {
    hide Happen;
    if events != [] {
      var n := |events| - 1;
      LiveIsSound(a, events[..n]);
      HappenKeepsSound(Live(a, events[..n]), a, events[n]);
    }
  }

  // ---- the balance of creations and losses ----

  /** A job is accepted only if the action has none; with the call it has one unless the id is empty. */
  lemma {:induction false} AcceptedThenHas(x: Action, log: seq<Call>, op: Op, kind: Kind)
    ensures var s := Apply(x, log, op);
      && Creations(s.log, kind) == Creations(log, kind) + (if Accepts(x, op, kind) then 1 else 0)
      && (Accepts(x, op, kind) ==> (kind.JobKind? ==> !Has(x, kind)) && (Has(s.action, kind) <==> !Hollow(op, kind)))
      && (!Accepts(x, op, kind) ==> (Has(x, kind) ==> Has(s.action, kind)))
  {
    hide Apply, JobCreations, TaskCreations;
    CallCreates(x, log, op);
  }

  lemma {:induction false} OneMoreEvent(a: Action, events: seq<Event>, kind: Kind)
    requires events != []
    ensures var n := |events| - 1;
      var w, e, w' := Live(a, events[..n]), events[n], Live(a, events);
      && w' == Happen(w, e)
      && Creations(w'.log, kind) == Creations(w.log, kind) + (if AcceptsAt(w, e, kind) then 1 else 0)
      && (AcceptsAt(w, e, kind) ==> (Has(w'.action, kind) <==> !HollowAt(w, e, kind)))
      && (HollowAt(w, e, kind) ==> !Has(w.action, kind))
      && (e.Do? && !AcceptsAt(w, e, kind) ==> (Has(w.action, kind) ==> Has(w'.action, kind)))
  {
    var n := |events| - 1;
    var w, e := Live(a, events[..n]), events[n];
    hide JobCreations, TaskCreations, Accepts;
    if e.Do? {
      AcceptedThenHas(w.action, w.log, e.op, kind);
    }
  }

  /**
   * What was created and what was regained make up for what was lost, what came with an empty id, what was
   * there already, and what the action has: in every run with any number of calls, crashes and restores.
   */
  lemma {:induction false} Balance(a: Action, events: seq<Event>, kind: Kind)
    ensures Creations(Live(a, events).log, kind) + Count(a, events, Gaining(kind)) + (if Has(a, kind) then 1 else 0) ==
      Count(a, events, Losing(kind)) + Count(a, events, AcceptingHollow(kind)) + Count(a, events, Repeating(kind)) +
      (if Has(Live(a, events).action, kind) then 1 else 0)
  {
    if events != [] {
      var n := |events| - 1;
      Balance(a, events[..n], kind);
      hide Live, Happen, JobCreations, TaskCreations, Has, Accepts, Hollow;
      OneMoreEvent(a, events, kind);
    }
  }

  // ---- a single exec repeats nothing ----

  /** No exec has worked on the action. */
  predicate Untouched(x: Action) { x.taskId == None && (x.input == None || x.input == Some(map[])) }

  /** Without an exec nothing is created: a resume works with an empty input. */
  lemma {:induction false} StayUntouched(w: World, e: Event)
    requires Untouched(w.action) && (forall x :: x in w.saved ==> Untouched(x)) && !(e.Do? && e.op.ExecOp?)
    ensures var w' := Happen(w, e); Untouched(w'.action) && forall x :: x in w'.saved ==> Untouched(x)
  {
    match e
    case Restore(job, task, input, result) =>
      if job <= task <= input <= result < |w.saved| {
        LoadAfterPersist(Snapshot(w.saved[job], w.saved[task], w.saved[input], w.saved[result]), map[]);
        assert w.saved[task] in w.saved && w.saved[input] in w.saved;
      }
    case Do(op) =>
      hide Apply, Trail;
      CallCreates(w.action, w.log, op);
      TrailBetween(w.action, w.log, op);
  }

  lemma {:induction false} UntouchedWithoutExec(a: Action, events: seq<Event>)
    requires New(a) && Execs(events) == 0
    ensures var w := Live(a, events); Untouched(w.action) && forall x :: x in w.saved ==> Untouched(x)
  {
    hide Happen;
    if events != [] {
      var n := |events| - 1;
      UntouchedWithoutExec(a, events[..n]);
      StayUntouched(Live(a, events[..n]), events[n]);
    }
  }

  lemma {:induction false} OneExecRepeatsNothing(a: Action, events: seq<Event>, kind: Kind)
    requires New(a) && Execs(events) <= 1
    ensures Count(a, events, Repeating(kind)) == 0
  {
    if events != [] {
      var n := |events| - 1;
      hide Live;
      OneExecRepeatsNothing(a, events[..n], kind);
      if Execs(events[..n]) == 0 {
        UntouchedWithoutExec(a, events[..n]);
      }
    }
  }

  // ---- positions ----

  lemma {:induction false} OccursBefore(a: Action, events: seq<Event>, what: (World, Event) -> bool, n: nat, j: nat)
    requires j < n <= |events|
    ensures Occurs(a, events[..n], what, j) <==> Occurs(a, events, what, j)
  {
    assert events[..n][..j] == events[..j];
  }

  /** The first event counted has a position, and any event of the kind is counted. */
  lemma {:induction false} Position(a: Action, events: seq<Event>, what: (World, Event) -> bool) returns (j: nat)
    requires Count(a, events, what) > 0
    ensures j < |events| && Occurs(a, events, what, j)
  {
    hide Live;
    var n := |events| - 1;
    if Count(a, events[..n], what) > 0 {
      hide Occurs, Count;
      j := Position(a, events[..n], what);
      OccursBefore(a, events, what, n, j);
    } else {
      j := n;
    }
  }

  lemma {:induction false} Counted(a: Action, events: seq<Event>, what: (World, Event) -> bool, j: nat)
    requires j < |events| && Occurs(a, events, what, j)
    ensures Count(a, events, what) > 0
    decreases |events|
  {
    hide Live;
    var n := |events| - 1;
    if j < n {
      OccursBefore(a, events, what, n, j);
      Counted(a, events[..n], what, j);
    }
  }

  /** The live action had one and it was lost or came with an empty id; what was created is in the log. */
  lemma {:induction false} LostWasCreated(a: Action, events: seq<Event>, kind: Kind)
    requires New(a)
    requires Count(a, events, Losing(kind)) > 0 || Count(a, events, AcceptingHollow(kind)) > 0
    ensures Creations(Live(a, events).log, kind) >= 1
  {
    var n := |events| - 1;
    var front := events[..n];
    LiveIsSound(a, front);
    LiveIsSound(a, events);
    OneMoreEvent(a, events, kind);
    hide Live, JobCreations, TaskCreations, Accepts, Hollow;
    if Count(a, front, Losing(kind)) > 0 || Count(a, front, AcceptingHollow(kind)) > 0 {
      LostWasCreated(a, front, kind);
    }
  }

  /** A task that is created again was created before. */
  lemma {:induction false} RepeatedTwice(a: Action, events: seq<Event>, kind: Kind)
    requires New(a) && Count(a, events, Repeating(kind)) > 0
    ensures Creations(Live(a, events).log, kind) >= 2
  {
    var n := |events| - 1;
    var front := events[..n];
    LiveIsSound(a, front);
    OneMoreEvent(a, events, kind);
    hide Live, JobCreations, TaskCreations;
    if Count(a, front, Repeating(kind)) > 0 {
      hide Accepts;
      RepeatedTwice(a, front, kind);
    }
  }

  /** Somewhere the job or the task is lost, or has an empty id, and later another one is accepted. */
  ghost predicate LostAndAccepted(a: Action, events: seq<Event>, kind: Kind) {
    exists j: nat, i: nat :: j < i < |events| && LostAndAcceptedAt(a, events, kind, j, i)
  }

  ghost predicate LostAndAcceptedAt(a: Action, events: seq<Event>, kind: Kind, j: nat, i: nat)
    requires j < i < |events|
  {
    && (Occurs(a, events, Losing(kind), j) || Occurs(a, events, AcceptingHollow(kind), j))
    && Occurs(a, events, Accepting(kind), i)
  }

  lemma {:induction false} LostBefore(a: Action, events: seq<Event>, kind: Kind)
    requires events != []
    ensures LostAndAccepted(a, events, kind) <==>
      var n := |events| - 1;
      || LostAndAccepted(a, events[..n], kind)
      || (Occurs(a, events, Accepting(kind), n)
          && (Count(a, events[..n], Losing(kind)) > 0 || Count(a, events[..n], AcceptingHollow(kind)) > 0))
  {
    hide Occurs, Count;
    var n := |events| - 1;
    var front := events[..n];
    forall j: nat, i: nat | j < i < n
      ensures LostAndAcceptedAt(a, front, kind, j, i) <==> LostAndAcceptedAt(a, events, kind, j, i)
    {
      OccursBefore(a, events, Losing(kind), n, j);
      OccursBefore(a, events, AcceptingHollow(kind), n, j);
      OccursBefore(a, events, Accepting(kind), n, i);
    }
    if LostAndAccepted(a, events, kind) {
      var j: nat, i: nat :| j < i < |events| && LostAndAcceptedAt(a, events, kind, j, i);
      if i < n {
        assert LostAndAcceptedAt(a, front, kind, j, i);
      } else {
        OccursBefore(a, events, Losing(kind), n, j);
        OccursBefore(a, events, AcceptingHollow(kind), n, j);
        if Occurs(a, front, Losing(kind), j) { Counted(a, front, Losing(kind), j); }
        if Occurs(a, front, AcceptingHollow(kind), j) { Counted(a, front, AcceptingHollow(kind), j); }
      }
    }
    if LostAndAccepted(a, front, kind) {
      var j: nat, i: nat :| j < i < |front| && LostAndAcceptedAt(a, front, kind, j, i);
      assert LostAndAcceptedAt(a, events, kind, j, i);
    }
    if Occurs(a, events, Accepting(kind), n) {
      if Count(a, front, Losing(kind)) > 0 {
        var j := Position(a, front, Losing(kind));
        OccursBefore(a, events, Losing(kind), n, j);
        assert LostAndAcceptedAt(a, events, kind, j, n);
      }
      if Count(a, front, AcceptingHollow(kind)) > 0 {
        var j := Position(a, front, AcceptingHollow(kind));
        OccursBefore(a, events, AcceptingHollow(kind), n, j);
        assert LostAndAcceptedAt(a, events, kind, j, n);
      }
    }
  }

  // ---- the theorems ----

  /** A call somewhere creates what the action has. */
  ghost predicate CreatedThoughThere(a: Action, events: seq<Event>, kind: Kind) {
    exists i: nat :: i < |events| && Occurs(a, events, Repeating(kind), i)
  }

  lemma {:induction false} RepeatsCounted(a: Action, events: seq<Event>, kind: Kind)
    ensures CreatedThoughThere(a, events, kind) <==> Count(a, events, Repeating(kind)) > 0
  {
    hide Occurs, Count;
    if Count(a, events, Repeating(kind)) > 0 {
      var i := Position(a, events, Repeating(kind));
    }
    if i: nat :| i < |events| && Occurs(a, events, Repeating(kind), i) {
      Counted(a, events, Repeating(kind), i);
    }
  }

  /**
   * A second job, or a second task, is created if and only if a state was loaded that lacks the one the
   * live action had, or a job came with an empty id, and later another one was accepted; or a call created
   * what the action had, as only exec does, and only with tasks. Calls come in any order, each with any
   * replies; any saved state may be loaded at any point.
   */
  lemma {:induction false} CreatedAgainIff(a: Action, events: seq<Event>, kind: Kind)
    requires New(a)
    ensures Creations(Live(a, events).log, kind) >= 2 <==>
      LostAndAccepted(a, events, kind) || CreatedThoughThere(a, events, kind)
    decreases |events|, 1
  {
    RepeatsCounted(a, events, kind);
    hide CreatedThoughThere;
    if events == [] {
      assert Live(a, []).log == [];
    } else {
      CreatedAgainStep(a, events, kind);
    }
  }

  lemma {:induction false} CreatedAgainStep(a: Action, events: seq<Event>, kind: Kind)
    requires New(a) && events != []
    ensures Creations(Live(a, events).log, kind) >= 2 <==>
      LostAndAccepted(a, events, kind) || Count(a, events, Repeating(kind)) > 0
    decreases |events|, 0
  {
    var n := |events| - 1;
    var front := events[..n];
    CreatedAgainIff(a, front, kind);
    RepeatsCounted(a, front, kind);
    LostBefore(a, events, kind);
    OneMoreEvent(a, events, kind);
    hide LostAndAccepted, CreatedThoughThere, Live, JobCreations, TaskCreations, Has, Accepts;
    Balance(a, front, kind);
    if Count(a, events, Repeating(kind)) > 0 {
      RepeatedTwice(a, events, kind);
    }
    hide Count;
    if Count(a, front, Losing(kind)) > 0 || Count(a, front, AcceptingHollow(kind)) > 0 {
      LostWasCreated(a, front, kind);
    }
    if LostAndAccepted(a, front, kind) {
      AcceptedWasLost(a, front, kind);
    }
  }

  /** Only exec creates what the action has, and only a task. */
  lemma {:induction false} OnlyExecRepeats(w: World, e: Event, kind: Kind)
    requires RepeatsAt(w, e, kind)
    ensures kind.TaskKind? && e.Do? && e.op.ExecOp? && w.action.taskId.Some?
  {}

  lemma {:induction false} AcceptedWasLost(a: Action, events: seq<Event>, kind: Kind)
    requires LostAndAccepted(a, events, kind)
    ensures Count(a, events, Losing(kind)) > 0 || Count(a, events, AcceptingHollow(kind)) > 0
  {
    hide Count, Occurs;
    var j: nat, i: nat :| j < i < |events| && LostAndAcceptedAt(a, events, kind, j, i);
    if Occurs(a, events, Losing(kind), j) {
      Counted(a, events, Losing(kind), j);
    } else {
      Counted(a, events, AcceptingHollow(kind), j);
    }
  }

  /** Never more than one more than was lost, came with an empty id or was there already. */
  lemma {:induction false} CreationsBounded(a: Action, events: seq<Event>, kind: Kind)
    requires New(a)
    ensures Creations(Live(a, events).log, kind) <=
      Count(a, events, Losing(kind)) + Count(a, events, AcceptingHollow(kind)) + Count(a, events, Repeating(kind)) +
      if Has(a, kind) then 0 else 1
  {
    Balance(a, events, kind);
    if Has(a, kind) {
      LiveIsSound(a, events);
    }
  }

  /** For example an action on which exec is called twice: every call creates a task. */
  lemma {:induction false} ExecTwice(a: Action, input: Dict, replies: Remote, again: Remote)
    requires New(a) && a.jobId == None && DATASETS in input
    requires replies.job.Replied? && replies.job.value != "" && replies.task.Replied? && again.task.Replied?
    ensures var events := [Do(ExecOp(input, replies)), Do(ExecOp(input, again))];
      TaskCreations(Live(a, events).log) == 2 && JobCreations(Live(a, events).log) == 1
  {
    var first, second := Do(ExecOp(input, replies)), Do(ExecOp(input, again));
    hide JobCreations, TaskCreations, Happen, Live;
    NothingHappened(a);
    var w := FirstExec(a, input, replies);
    LiveMore(a, [], first);
    LiveMore(a, [first], second);
    assert [] + [first] == [first] && [first] + [second] == [first, second];
    ExecAgain(w, input, again);
  }

  lemma {:induction false} ExecAgain(w: World, input: Dict, again: Remote)
    requires Truthy(w.action.jobId) && w.action.input == Some(input) && DATASETS in input && again.task.Replied?
    ensures var w' := Happen(w, Do(ExecOp(input, again)));
      TaskCreations(w'.log) == TaskCreations(w.log) + 1 && JobCreations(w'.log) == JobCreations(w.log)
  {
    hide JobCreations, TaskCreations, Apply, Trail;
    CallCreates(w.action, w.log, ExecOp(input, again));
  }

  /**
   * A crash while the call waits, after which the state is loaded from before anything was created: the
   * resumed action creates a second job and a second task.
   */
  lemma {:induction false} RestoreCreatesAgain(a: Action, input: Dict, replies: Remote, again: Remote) returns (events: seq<Event>)
    requires New(a) && a.jobId == None && DATASETS in input
    requires replies.job.Replied? && replies.job.value != "" && replies.task.Replied? && replies.polls == []
    requires again.job.Replied? && again.task.Replied? && again.polls == []
    ensures Execs(events) == 1
    ensures JobCreations(Live(a, events).log) == 2 && TaskCreations(Live(a, events).log) == 2
  {
    var exec, restore, resume := Do(ExecOp(input, replies)), Restore(1, 1, 1, 1), Do(ResumeOp(again));
    var one := [] + [exec];
    var two := one + [restore];
    events := two + [resume];
    hide JobCreations, TaskCreations, Happen, Live, Execs;
    NothingHappened(a);
    var w1 := FirstExec(a, input, replies);
    LiveMore(a, [], exec);
    LiveMore(a, one, restore);
    LiveMore(a, two, resume);
    ResumedFresh(a.(input := Some(input)), w1, again);
  }

  lemma {:induction false} ResumedFresh(start: Action, w: World, again: Remote)
    requires start.jobId == None && start.taskId == None && start.result == None
    requires start.input.Some? && DATASETS in start.input.value && again.job.Replied? && again.task.Replied?
    requires |w.saved| > 1 && w.saved[1] == start
    ensures var w' := Happen(Happen(w, Restore(1, 1, 1, 1)), Do(ResumeOp(again)));
      && JobCreations(w'.log) == JobCreations(w.log) + 1
      && TaskCreations(w'.log) == TaskCreations(w.log) + 1
  {
    hide JobCreations, TaskCreations, Apply, Trail;
    CallCreates(Load(Persist(start)), w.log, ResumeOp(again));
  }

  /**
   * The ids may be saved at different moments: a job that was read before it was created, and a task after.
   * The action that is loaded has the task but not its job, and creates both again.
   */
  lemma {:induction false} TornSaveCreatesAgain(a: Action, input: Dict, replies: Remote, again: Remote) returns (events: seq<Event>)
    requires New(a) && a.jobId == None && DATASETS in input
    requires replies.job.Replied? && replies.job.value != "" && replies.task.Replied? && replies.polls == []
    requires again.job.Replied? && again.task.Replied? && again.polls == []
    ensures Execs(events) == 1
    ensures |events| == 3
    ensures Live(a, events[..2]).action.taskId == Some(replies.task.value) && Live(a, events[..2]).action.jobId == None
    ensures JobCreations(Live(a, events).log) == 2 && TaskCreations(Live(a, events).log) == 2
  {
    var exec, restore, resume := Do(ExecOp(input, replies)), Restore(1, 3, 3, 3), Do(ResumeOp(again));
    var one := [] + [exec];
    var two := one + [restore];
    events := two + [resume];
    hide JobCreations, TaskCreations, Happen, Live, Execs;
    NothingHappened(a);
    var w1 := FirstExec(a, input, replies);
    LiveMore(a, [], exec);
    LiveMore(a, one, restore);
    LiveMore(a, two, resume);
    assert events[..2] == two;
    ResumedTorn(a.(input := Some(input)), w1, replies, again);
  }

  lemma {:induction false} ResumedTorn(start: Action, w: World, replies: Remote, again: Remote)
    requires start.jobId == None && start.result == None
    requires start.input.Some? && DATASETS in start.input.value && again.job.Replied? && again.task.Replied?
    requires replies.job.Replied? && replies.task.Replied?
    requires |w.saved| > 3 && w.saved[1] == start
    requires w.saved[3] == start.(jobId := Some(replies.job.value), taskId := Some(replies.task.value))
    ensures var loaded := Happen(w, Restore(1, 3, 3, 3));
      var w' := Happen(loaded, Do(ResumeOp(again)));
      && loaded.action.taskId == Some(replies.task.value) && loaded.action.jobId == None
      && JobCreations(w'.log) == JobCreations(w.log) + 1
      && TaskCreations(w'.log) == TaskCreations(w.log) + 1
  {
    hide JobCreations, TaskCreations, Apply, Trail;
    var loaded := Happen(w, Restore(1, 3, 3, 3));
    CallCreates(loaded.action, w.log, ResumeOp(again));
  }

  lemma {:induction false} NothingHappened(a: Action)
    ensures Live(a, []) == World(a, [], [a]) && Execs([]) == 0
  {}

  lemma {:induction false} LiveMore(a: Action, events: seq<Event>, e: Event)
    ensures Live(a, events + [e]) == Happen(Live(a, events), e)
    ensures Execs(events + [e]) == Execs(events) + if e.Do? && e.op.ExecOp? then 1 else 0
  {
    assert (events + [e])[..|events|] == events;
  }

  lemma {:induction false} CountMore(a: Action, events: seq<Event>, e: Event, what: (World, Event) -> bool)
    ensures Count(a, events + [e], what) == Count(a, events, what) + if what(Live(a, events), e) then 1 else 0
  {
    hide Live;
    assert (events + [e])[..|events|] == events;
  }

  lemma {:induction false} FirstExec(a: Action, input: Dict, replies: Remote) returns (w: World)
    requires New(a) && a.jobId == None && DATASETS in input
    requires replies.job.Replied? && replies.job.value != "" && replies.task.Replied?
    ensures w == Happen(World(a, [], [a]), Do(ExecOp(input, replies)))
    ensures |w.saved| > 1 && w.saved[1] == a.(input := Some(input))
    ensures JobCreations(w.log) == 1 && TaskCreations(w.log) == 1
    ensures w.action.jobId == Some(replies.job.value) && w.action.input == Some(input)
    ensures |w.saved| > 3 && w.saved[3] ==
      a.(input := Some(input), jobId := Some(replies.job.value), taskId := Some(replies.task.value))
  {
    hide JobCreations, TaskCreations, Apply;
    var op := ExecOp(input, replies);
    w := Happen(World(a, [], [a]), Do(op));
    CallCreates(a, [], op);
    NoCreations();
    TrailOfExec(a, [], input, replies);
  }

  lemma {:induction false} NoCreations()
    ensures JobCreations([]) == 0 && TaskCreations([]) == 0
  {}

  // ---- without older states ----

  function Dos(ops: seq<Op>): seq<Event> { seq(|ops|, i requires 0 <= i < |ops| => Do(ops[i])) }

  lemma {:induction false} LiveWithoutRestores(a: Action, ops: seq<Op>)
    ensures Live(a, Dos(ops)).action == Run(a, ops).action && Live(a, Dos(ops)).log == Run(a, ops).log
    ensures Execs(Dos(ops)) == TrainProtocol.Execs(ops)
    ensures forall kind :: Count(a, Dos(ops), Losing(kind)) == 0
  {
    if ops != [] {
      hide Apply, Trail, Live, Count;
      var front, op := ops[..|ops| - 1], ops[|ops| - 1];
      LiveWithoutRestores(a, front);
      assert Dos(ops) == Dos(front) + [Do(op)];
      LiveMore(a, Dos(front), Do(op));
      forall kind ensures Count(a, Dos(ops), Losing(kind)) == 0 { CountMore(a, Dos(front), Do(op), Losing(kind)); }
    } else {
      NothingHappened(a);
    }
  }

  /** No reply in these calls is an empty job id. */
  predicate NoEmptyJobId(ops: seq<Op>) {
    forall i :: 0 <= i < |ops| ==> ops[i].Reload? || ops[i].remote.job != Replied("")
  }

  /**
   * With states saved and loaded at once there is at most one task, which every poll is about, no job at
   * all for an action built with one, and a second job if and only if an accepted job id was empty and
   * later another job is accepted; never if no reply is an empty job id.
   */
  lemma {:induction false} CreatedAtMostOnceIff(a: Action, ops: seq<Op>)
    requires New(a) && TrainProtocol.Execs(ops) <= 1
    ensures TaskCreations(Run(a, ops).log) <= 1 && OnlyTask(Run(a, ops).log, Run(a, ops).action.taskId)
    ensures Truthy(a.jobId) ==> JobCreations(Run(a, ops).log) == 0
    ensures JobCreations(Run(a, ops).log) >= 2 <==>
      exists j: nat, i: nat :: j < i < |Dos(ops)| &&
        Occurs(a, Dos(ops), AcceptingHollow(JobKind), j) && Occurs(a, Dos(ops), Accepting(JobKind), i)
    ensures NoEmptyJobId(ops) ==> JobCreations(Run(a, ops).log) <= 1
  {
    var events := Dos(ops);
    CreatedAtMostOnce(a, ops);
    LiveWithoutRestores(a, ops);
    CreatedAgainIff(a, events, JobKind);
    CreationsBounded(a, events, TaskKind);
    OneExecRepeatsNothing(a, events, TaskKind);
    OneExecRepeatsNothing(a, events, JobKind);
    RepeatsCounted(a, events, JobKind);
    NoHollowTasks(a, events);
    hide Live, Count, Occurs, CreatedThoughThere;
    forall j: nat | j < |events| ensures !Occurs(a, events, Losing(JobKind), j) {
      if Occurs(a, events, Losing(JobKind), j) { Counted(a, events, Losing(JobKind), j); }
    }
    if exists j: nat, i: nat :: j < i < |events| &&
         Occurs(a, events, AcceptingHollow(JobKind), j) && Occurs(a, events, Accepting(JobKind), i) {
      var j: nat, i: nat :| j < i < |events| &&
        Occurs(a, events, AcceptingHollow(JobKind), j) && Occurs(a, events, Accepting(JobKind), i);
      assert LostAndAcceptedAt(a, events, JobKind, j, i);
      HollowReply(a, ops, j);
    }
  }

  lemma {:induction false} HollowReply(a: Action, ops: seq<Op>, j: nat)
    requires j < |Dos(ops)| && Occurs(a, Dos(ops), AcceptingHollow(JobKind), j)
    ensures !NoEmptyJobId(ops)
  {
    assert Dos(ops)[j] == Do(ops[j]);
  }

  lemma {:induction false} NoHollowTasks(a: Action, events: seq<Event>)
    ensures Count(a, events, AcceptingHollow(TaskKind)) == 0
  {
    if events != [] { NoHollowTasks(a, events[..|events| - 1]); }
  }

  // ---- what is polled ----

  predicate TaskMade(log: seq<Call>, taskId: string) {
    exists c :: c in log && c.TaskCreated? && c.taskId == taskId
  }

  ghost predicate PollsMade(log: seq<Call>) {
    forall c :: c in log && c.Polled? ==> TaskMade(log, c.taskId)
  }

  ghost predicate KnowsMade(x: Action, log: seq<Call>) { x.taskId.Some? ==> TaskMade(log, x.taskId.value) }

  lemma {:induction false} MoreMade(log: seq<Call>, c: Call)
    requires PollsMade(log) && (c.Polled? ==> TaskMade(log, c.taskId))
    ensures PollsMade(log + [c])
    ensures forall id :: TaskMade(log, id) || (c.TaskCreated? && c.taskId == id) ==> TaskMade(log + [c], id)
  {
    var all := log + [c];
    forall id | TaskMade(log, id) || (c.TaskCreated? && c.taskId == id) ensures TaskMade(all, id) {
      if TaskMade(log, id) {
        var d :| d in log && d.TaskCreated? && d.taskId == id;
        assert d in all;
      } else {
        assert c in all;
      }
    }
  }

  /** These calls were added to the log, polling only tasks that were created. */
  ghost predicate PolledWell(log: seq<Call>, later: seq<Call>) {
    && PollsMade(later)
    && (forall id :: TaskMade(log, id) ==> TaskMade(later, id))
  }

  lemma {:induction false} NothingPolled(log: seq<Call>)
    requires PollsMade(log)
    ensures PolledWell(log, log)
  {}

  lemma {:induction false} StillKnown(a: Action, b: Action, log: seq<Call>, later: seq<Call>)
    requires KnowsMade(a, log) && PolledWell(log, later) && b.taskId == a.taskId
    ensures KnowsMade(b, later)
  {}

  lemma {:induction false} WaitPollsMade(a: Action, log: seq<Call>, polls: seq<Reply<Status>>)
    requires a.taskId.Some? && PollsMade(log) && KnowsMade(a, log)
    ensures PolledWell(log, Wait(a, log, polls).log)
    decreases |polls|
  {
    hide TaskMade, PollsMade;
    if polls != [] {
      var polled := log + [Polled(a.taskId.value)];
      MoreMade(log, Polled(a.taskId.value));
      if polls[0].Replied? {
        var status := polls[0].value;
        var seen := a.(status := Some(status), progress := if status.Running? then status.progress else a.progress);
        if status.Running? || status.Waiting? || status.Blank? {
          WaitPollsMade(seen, polled, polls[1..]);
        }
      }
    }
  }

  lemma {:induction false} TaskPollsMade(a: Action, log: seq<Call>, input: Dict, remote: Remote)
    requires a.jobId.Some? && PollsMade(log) && KnowsMade(a, log)
    ensures var s := CreateAndWait(a, log, input, remote); PolledWell(log, s.log) && KnowsMade(s.action, s.log)
  {
    hide TaskMade, PollsMade;
    TaskCreates(a, log, input, remote);
    if remote.task.Replied? {
      var created := TaskCreated(RequestFor(a, input), remote.task.value);
      MoreMade(log, created);
      WaitPollsMade(a.(taskId := Some(remote.task.value)), log + [created], remote.polls);
    }
  }

  lemma {:induction false} InnerPollsMade(a: Action, log: seq<Call>, input: Dict, remote: Remote)
    requires PollsMade(log) && KnowsMade(a, log)
    ensures var s := ExecInner(a, log, input, remote); PolledWell(log, s.log) && KnowsMade(s.action, s.log)
  {
    hide TaskMade, PollsMade, CreateAndWait;
    if DATASETS in input {
      if Truthy(a.jobId) {
        TaskPollsMade(a, log, input, remote);
      } else if remote.job.Replied? {
        MoreMade(log, JobCreated(remote.job.value));
        TaskPollsMade(a.(jobId := Some(remote.job.value)), log + [JobCreated(remote.job.value)], input, remote);
      }
    }
  }

  lemma {:induction false} CallPollsMade(a: Action, log: seq<Call>, op: Op)
    requires PollsMade(log) && KnowsMade(a, log)
    ensures var s := Apply(a, log, op); PolledWell(log, s.log) && KnowsMade(s.action, s.log)
  {
    hide TaskMade, PollsMade, PolledWell, ExecInner, Wait;
    NothingPolled(log);
    if WorkingInput(a, op).Some? {
      InnerPollsMade(Working(a, op), log, WorkingInput(a, op).value, op.remote);
    } else if op.ResumeOp? && a.result == None {
      WaitPollsMade(a, log, op.remote.polls);
      WaitCreatesNothing(a, log, op.remote.polls);
      StillKnown(a, Apply(a, log, op).action, log, Apply(a, log, op).log);
    }
  }

  /** In every run, whatever is loaded, each poll is about a task that was created. */
  lemma {:induction false} PollsAreOfCreatedTasks(a: Action, events: seq<Event>)
    requires New(a)
    ensures var w := Live(a, events);
      PollsMade(w.log) && KnowsMade(w.action, w.log) && forall k :: 0 <= k < |w.saved| ==> KnowsMade(w.saved[k], w.log)
  {
    if events != [] {
      var n := |events| - 1;
      var w, e := Live(a, events[..n]), events[n];
      PollsAreOfCreatedTasks(a, events[..n]);
      hide TaskMade, PollsMade, Apply, Trail;
      match e
      case Restore(job, task, input, result) =>
        if job <= task <= input <= result < |w.saved| {
          LoadAfterPersist(Snapshot(w.saved[job], w.saved[task], w.saved[input], w.saved[result]), map[]);
        }
      case Do(op) =>
        CallPollsMade(w.action, w.log, op);
        TrailBetween(w.action, w.log, op);
        var trail := Trail(w.action, w.log, op);
        forall k | 0 <= k < |trail| ensures KnowsMade(trail[k], Happen(w, e).log) { assert trail[k] in trail; }
    }
  }
}
