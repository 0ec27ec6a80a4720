/**
 * Retrying a model request: N attempts, and one more that is free when the access token turns out
 * to be invalid and is refreshed. N == 0 means no bound.
 */
module Retries {
  import opened Options

  datatype Error = Network | Api(code: int) | Internal

  /** One round trip: it fails before there is an answer, or the service answers, 0 meaning success. */
  datatype Attempt = Broken(error: Error) | Response(code: int)

  /** How the one token refresh goes. */
  datatype RefreshReply = RefreshDone | RefreshFailed(error: Error)

  /** The environment: how every attempt and the refresh turn out, and which codes are retried. */
  datatype Env = Env(attempt: nat -> Attempt, refresh: RefreshReply, retryCodes: set<int>)

  /** Token invalid, token expired. */
  predicate TokenCode(code: int) { code == 110 || code == 111 }

  /** Unavailable, high load, the limits on queries, requests and tokens, and unknown application. */
  const DefaultRetryCodes: set<int> := {2, 336100, 18, 336501, 336502, 15}

  predicate Final(e: Error, env: Env) { e.Api? && e.code !in env.retryCodes }

  // ---- one attempt ----

  datatype Verdict = Success | TryAgain | Failure(error: Error)

  /** The request function: its verdict, the error it leaves behind, and whether it refreshed. */
  datatype Round = Round(verdict: Verdict, err: Option<Error>, refreshes: bool)

  function Once(env: Env, k: nat, refreshed: bool): Round {
    match env.attempt(k)
    case Broken(e) => Round(Failure(e), Some(e), false)
    case Response(code) =>
      if code == 0 then Round(Success, None, false)
      else if !refreshed && TokenCode(code) then
        match env.refresh
        case RefreshDone => Round(TryAgain, Some(Api(code)), true)
        case RefreshFailed(e) => Round(Failure(e), Some(Api(code)), true)
      else Round(Failure(Api(code)), Some(Api(code)), false)
  }

  // ---- the loop ----

  /** The loop as it stands before an attempt, and what it ends with. */
  datatype Loop = Loop(attempts: nat, retryCount: nat, refreshes: nat, returned: Option<Error>, err: Option<Error>)

  datatype Run = Ended(loop: Loop) | Running(loop: Loop)

  predicate MayTry(n: int, l: Loop) { l.retryCount < n || n == 0 }

  /** The state after one more attempt, and whether the loop is left. */
  function After(env: Env, l: Loop): (Loop, bool) {
    var round := Once(env, l.attempts, l.refreshes > 0);
    var next := Loop(l.attempts + 1, l.retryCount, l.refreshes + if round.refreshes then 1 else 0, l.returned, round.err);
    match round.verdict
    case Success => (next.(returned := None), true)
    case TryAgain => (next, false)
    case Failure(e) =>
      if Final(e, env) then (next.(returned := Some(e)), true)
      else (next.(returned := Some(e), retryCount := l.retryCount + 1), false)
  }

  /** Runs the loop for at most `patience` attempts. */
  function RunLoop(n: int, env: Env, l: Loop, patience: nat): Run
    decreases patience
  {
    if !MayTry(n, l) then Ended(l)
    else if patience == 0 then Running(l)
    else
      var (next, done) := After(env, l);
      if done then Ended(next) else RunLoop(n, env, next, patience - 1)
  }

  const Start := Loop(0, 0, 0, None, None)

  function WithRetry(n: int, env: Env, patience: nat): Run { RunLoop(n, env, Start, patience) }

  /** requestResource reports the error of the last attempt when the loop reports any. */
  function Reported(l: Loop): Option<Error> {
    if l.returned.Some? then l.err else None
  }

  // ---- what an answer leads to ----

  /** The codes after which the default configuration tries again, at the price of an attempt. */
  ghost predicate CostsAttempt(code: int) {
    code == 2 || code == 15 || code == 18 || code == 336100 || code == 336501 || code == 336502
  }

  /**
   * What the loop makes of an answer, by its code: 0 ends it well; the first 110 or 111 refreshes the
   * token, and if that works the next attempt is free; some codes cost an attempt; the others end it.
   */
  lemma {:induction false} AnswerDecides(env: Env, l: Loop, code: int)
    requires env.retryCodes == DefaultRetryCodes && env.attempt(l.attempts) == Response(code)
    ensures var (next, done) := After(env, l);
      var refreshing := l.refreshes == 0 && (code == 110 || code == 111);
      && next.attempts == l.attempts + 1
      && next.refreshes == l.refreshes + (if refreshing then 1 else 0)
      && (code == 0 ==> done && next.returned == None && Reported(next) == None)
      && (refreshing && env.refresh.RefreshDone? ==> !done && next.retryCount == l.retryCount && next.returned == l.returned)
      && (!refreshing && code != 0 ==> next.returned == Some(Api(code)) && Reported(next) == Some(Api(code)))
      && (!refreshing && CostsAttempt(code) ==> !done && next.retryCount == l.retryCount + 1)
      && (!refreshing && code != 0 && !CostsAttempt(code) ==> done && next.retryCount == l.retryCount)
  {}

  /** A refresh that fails, and a request that does not get through, cost an attempt unless their error is final. */
  lemma {:induction false} FailureDecides(env: Env, l: Loop, e: Error)
    requires env.retryCodes == DefaultRetryCodes
    requires env.attempt(l.attempts) == Broken(e) ||
      (l.refreshes == 0 && env.refresh == RefreshFailed(e) &&
       (env.attempt(l.attempts) == Response(110) || env.attempt(l.attempts) == Response(111)))
    ensures var (next, done) := After(env, l);
      && next.returned == Some(e)
      && (done <==> e.Api? && !CostsAttempt(e.code))
      && next.retryCount == l.retryCount + if done then 0 else 1
  {}

  // ---- the bound ----

  /** What is left: attempts still counted, and the free one while the token was not refreshed. */
  function Remaining(n: int, l: Loop): int {
    n - l.retryCount + if l.refreshes == 0 then 1 else 0
  }

  ghost predicate Wellformed(n: int, env: Env, l: Loop) {
    && l.refreshes <= 1
    && l.attempts == l.retryCount + (if l.refreshes == 1 && env.refresh.RefreshDone? then 1 else 0)
    && (l.attempts == 0 ==> l.returned == None && l.err == None)
    && (l.attempts > 0 ==> l.err.Some?)
    && (l.retryCount > 0 ==> l.returned.Some?)
    && (forall j: nat :: j < l.attempts ==> Retried(env, j))
  }

  /** An attempt after which the loop goes on: no success, and an error that is retried or refreshed. */
  ghost predicate Retried(env: Env, j: nat) {
    match env.attempt(j)
    case Broken(e) => !Final(e, env)
    case Response(code) => code != 0 && (code in env.retryCodes || TokenCode(code))
  }

  /** How a loop can end: success, a final error, or all counted attempts used up. */
  ghost predicate Concluded(n: int, env: Env, l: Loop) {
    && l.refreshes <= 1
    && (l.attempts > 0 ==>
        && (forall j: nat :: j < l.attempts - 1 ==> Retried(env, j))
        && (l.returned == None <==> env.attempt(l.attempts - 1) == Response(0))
        && (l.returned.Some? ==> l.err.Some?)
        && (l.returned.Some? && !Final(l.returned.value, env) ==>
              l.attempts == n + if l.refreshes == 1 && env.refresh.RefreshDone? then 1 else 0))
  }

  lemma {:induction false} LoopConcludes(n: int, env: Env, l: Loop, patience: nat)
    requires n >= 0 && Wellformed(n, env, l) && (n > 0 ==> l.retryCount <= n)
    ensures var run := RunLoop(n, env, l, patience);
      && (run.Ended? ==> Concluded(n, env, run.loop))
      && (n > 0 && patience >= Remaining(n, l) ==> run.Ended?)
      && (n > 0 ==> run.loop.attempts <= l.attempts + Remaining(n, l))
    decreases patience
  {
    if !MayTry(n, l) {
      assert Retried(env, l.attempts - 1);
    } else if patience > 0 {
      var (next, done) := After(env, l);
      if !done {
        assert Retried(env, l.attempts);
        LoopConcludes(n, env, next, patience - 1);
      }
    }
  }

  /**
   * With a retry count of at least one the request runs at most one time more than that, the token is
   * refreshed at most once, every attempt but the last was one to retry, and the loop ends with the
   * first success, the first final error, or after its counted attempts.
   */
  lemma {:induction false} RetryBound(n: int, env: Env, patience: nat)
    requires n >= 1 && patience > n
    ensures var run := WithRetry(n, env, patience);
      run.Ended? && 1 <= run.loop.attempts <= n + 1 && Concluded(n, env, run.loop)
  {
    LoopConcludes(n, env, Start, patience);
    var (next, done) := After(env, Start);
    if !done { LoopAdvances(n, env, next, patience - 1); }
  }

  lemma {:induction false} LoopAdvances(n: int, env: Env, l: Loop, patience: nat)
    ensures RunLoop(n, env, l, patience).loop.attempts >= l.attempts
    decreases patience
  {
    if MayTry(n, l) && patience > 0 && !After(env, l).1 {
      LoopAdvances(n, env, After(env, l).0, patience - 1);
    }
  }

  /** No error is reported exactly when the last attempt succeeded. */
  lemma {:induction false} NilMeansSuccess(n: int, env: Env, patience: nat)
    requires n >= 1 && patience > n
    ensures var run := WithRetry(n, env, patience);
      run.Ended? && run.loop.attempts >= 1 &&
      (Reported(run.loop) == None <==> env.attempt(run.loop.attempts - 1) == Response(0))
  {
    RetryBound(n, env, patience);
  }

  /** A negative retry count reports success without a single attempt. */
  lemma NegativeCountReportsSuccess(n: int, env: Env, patience: nat)
    requires n < 0
    ensures WithRetry(n, env, patience) == Ended(Start) && Reported(Start) == None
  {}

  // ---- the error that is reported ----

  predicate TokenAttempt(a: Attempt) { a.Response? && TokenCode(a.code) }

  /** Attempt k is the first to meet a token code, so it refreshes the token. */
  ghost predicate RefreshesAt(env: Env, k: nat) {
    TokenAttempt(env.attempt(k)) && forall j: nat :: j < k ==> !TokenAttempt(env.attempt(j))
  }

  /** The token was refreshed exactly if a token code has been met. */
  ghost predicate RefreshTold(env: Env, l: Loop) {
    l.refreshes == 0 <==> forall j: nat :: j < l.attempts ==> !TokenAttempt(env.attempt(j))
  }

  /** The error the loop ends with and the one left behind differ only when the refresh itself failed. */
  ghost predicate ErrorsDiffer(env: Env, k: nat) {
    RefreshesAt(env, k) && env.refresh.RefreshFailed? && env.refresh.error != Api(env.attempt(k).code)
  }

  lemma {:induction false} OneAttempt(env: Env, l: Loop)
    requires RefreshTold(env, l)
    ensures var (next, done) := After(env, l);
      && next.attempts == l.attempts + 1 && RefreshTold(env, next)
      && (next.retryCount > l.retryCount || done ==>
            (Reported(next) != next.returned <==> ErrorsDiffer(env, l.attempts)))
      && (next.retryCount == l.retryCount && !done ==> !ErrorsDiffer(env, l.attempts))
  {
    var (next, done) := After(env, l);
    assert TokenAttempt(env.attempt(l.attempts)) ==> next.refreshes > 0;
  }

  lemma {:induction false} DifferFrom(n: int, env: Env, l: Loop, patience: nat)
    requires n >= 1 && RefreshTold(env, l) && l.retryCount < n
    ensures var run := RunLoop(n, env, l, patience);
      run.Ended? ==>
        && run.loop.attempts > l.attempts
        && (Reported(run.loop) != run.loop.returned <==> ErrorsDiffer(env, run.loop.attempts - 1))
    decreases patience
  {
    if patience > 0 {
      hide After, RefreshTold, ErrorsDiffer;
      var (next, done) := After(env, l);
      OneAttempt(env, l);
      RetriesCount(env, l);
      if !done && next.retryCount < n { DifferFrom(n, env, next, patience - 1); }
    }
  }

  lemma {:induction false} RetriesCount(env: Env, l: Loop)
    ensures l.retryCount <= After(env, l).0.retryCount <= l.retryCount + 1
  {}

  /**
   * The error reported is not the one the loop ended with if and only if the last attempt met the first
   * token code and the refresh failed with another error.
   */
  lemma {:induction false} ReportedDiffersIff(n: int, env: Env, patience: nat)
    requires n >= 1 && patience > n
    ensures var run := WithRetry(n, env, patience);
      run.Ended? && run.loop.attempts >= 1 &&
      (Reported(run.loop) != run.loop.returned <==> ErrorsDiffer(env, run.loop.attempts - 1))
  {
    RetryBound(n, env, patience);
    DifferFrom(n, env, Start, patience);
  }

  /** For example an expired token and a refresh that does not get through. */
  lemma {:induction false} RefreshErrorIsHidden() returns (env: Env)
    ensures var run := WithRetry(1, env, 2);
      run.Ended? && run.loop.returned == Some(Network) && Reported(run.loop) == Some(Api(111))
  {
    env := Env((k: nat) => Response(111), RefreshFailed(Network), DefaultRetryCodes);
    assert After(env, Start) == (Loop(1, 1, 1, Some(Network), Some(Api(111))), false);
  }

  /** The bound is met: an expired token first and then nothing but retried errors. */
  lemma {:induction false} BoundIsTight(n: int) returns (env: Env)
    requires n >= 1
    ensures WithRetry(n, env, n + 1).Ended? && WithRetry(n, env, n + 1).loop.attempts == n + 1
  {
    env := Env((k: nat) => if k == 0 then Response(111) else Response(18), RefreshDone, DefaultRetryCodes);
    assert After(env, Start) == (Loop(1, 0, 1, None, Some(Api(111))), false);
    HighLoad(n, env, Loop(1, 0, 1, None, Some(Api(111))), n);
    assert WithRetry(n, env, n + 1) == RunLoop(n, env, Loop(1, 0, 1, None, Some(Api(111))), n);
  }

  lemma {:induction false} HighLoad(n: int, env: Env, l: Loop, patience: nat)
    requires n >= 0 && l.refreshes > 0 && l.attempts > 0 && 18 in env.retryCodes
    requires forall k: nat :: k > 0 ==> env.attempt(k) == Response(18)
    requires n > 0 ==> l.retryCount + patience == n
    ensures var run := RunLoop(n, env, l, patience);
      run.loop.attempts == l.attempts + patience && (run.Ended? <==> n > 0)
    decreases patience
  {
    if patience > 0 {
      HighLoad(n, env, After(env, l).0, patience - 1);
    }
  }

  /** Without a bound there are environments in which the loop never ends. */
  lemma {:induction false} UnboundedMayNotEnd(patience: nat) returns (env: Env)
    ensures WithRetry(0, env, patience + 1).Running?
  {
    env := Env((k: nat) => if k == 0 then Response(111) else Response(18), RefreshDone, DefaultRetryCodes);
    var l := Loop(1, 0, 1, None, Some(Api(111)));
    assert After(env, Start) == (l, false);
    HighLoad(0, env, l, patience);
    assert WithRetry(0, env, patience + 1) == RunLoop(0, env, l, patience);
  }

  // ---- the loop of the stream constructor ----

  /** The response at hand: an error document in JSON, a broken body, or a stream. */
  datatype Reply = ErrorDocument(code: int) | BrokenBody | EventStream

  /** reply(k) is the response after k new requests; resetWorks(k) tells whether the (k+1)-th one gets through. */
  datatype StreamEnv = StreamEnv(reply: nat -> Reply, resetWorks: nat -> bool, refresh: RefreshReply, retryCodes: set<int>)

  datatype StreamLoop = StreamLoop(requests: nat, retryCount: nat, refreshes: nat, apiError: Option<Error>)

  datatype StreamEnd = Opened(requests: nat) | GaveUp(error: Error, requests: nat) | StillTrying

  /** The error for leaving the loop without ever having seen an error document. */
  const InternalError := Internal

  /** checkResponseError, for at most `patience` rounds. */
  function CheckResponse(n: int, env: StreamEnv, l: StreamLoop, patience: nat): StreamEnd
    decreases patience
  {
    if !(l.retryCount < n || n == 0) then
      GaveUp(if l.apiError.Some? then l.apiError.value else InternalError, l.requests)
    else if patience == 0 then StillTrying
    else
      match env.reply(l.requests)
      case EventStream => Opened(l.requests)
      case BrokenBody => GaveUp(Network, l.requests)
      case ErrorDocument(code) =>
        var refreshNow := l.refreshes == 0 && TokenCode(code);
        if refreshNow && env.refresh.RefreshFailed? then GaveUp(env.refresh.error, l.requests)
        else if !refreshNow && code !in env.retryCodes then GaveUp(Api(code), l.requests)
        else if !env.resetWorks(l.requests) then GaveUp(Network, l.requests)
        else
          CheckResponse(n, env,
            StreamLoop(l.requests + 1, l.retryCount + (if refreshNow then 0 else 1),
                       l.refreshes + (if refreshNow then 1 else 0), Some(Api(code))),
            patience - 1)
  }

  const StreamStart := StreamLoop(0, 0, 0, None)

  /** The response to request k is one the loop asks again after. */
  ghost predicate AskedAgain(env: StreamEnv, k: nat) {
    && env.resetWorks(k) && env.reply(k).ErrorDocument?
    && (env.reply(k).code in env.retryCodes || TokenCode(env.reply(k).code))
  }

  lemma {:induction false} CheckConcludes(n: int, env: StreamEnv, l: StreamLoop, patience: nat)
    requires n >= 1 && l.retryCount <= n && l.refreshes <= 1 && l.requests == l.retryCount + l.refreshes
    requires patience > n - l.retryCount + 1 - l.refreshes
    requires forall k: nat :: k < l.requests ==> AskedAgain(env, k)
    ensures var end := CheckResponse(n, env, l, patience);
      && !end.StillTrying? && end.requests <= n + 1
      && (forall k: nat :: k < end.requests ==> AskedAgain(env, k))
      && (end.Opened? ==> env.reply(end.requests) == EventStream)
      && (end.GaveUp? && env.reply(end.requests) == EventStream ==> end.requests >= n)
    decreases patience
  {
    if l.retryCount < n && env.reply(l.requests).ErrorDocument? {
      var code := env.reply(l.requests).code;
      var refreshNow := l.refreshes == 0 && TokenCode(code);
      if !(refreshNow && env.refresh.RefreshFailed?) && (refreshNow || code in env.retryCodes) && env.resetWorks(l.requests) {
        assert AskedAgain(env, l.requests);
        CheckConcludes(n, env,
          StreamLoop(l.requests + 1, l.retryCount + (if refreshNow then 0 else 1),
                     l.refreshes + (if refreshNow then 1 else 0), Some(Api(code))),
          patience - 1);
      }
    }
  }

  /** A stream is opened, a broken body ends the loop; so does a negative count, with an error of its own. */
  lemma {:induction false} ReplyDecides(n: int, env: StreamEnv, l: StreamLoop, patience: nat)
    requires patience > 0
    ensures (l.retryCount < n || n == 0) && env.reply(l.requests) == EventStream ==>
      CheckResponse(n, env, l, patience) == Opened(l.requests)
    ensures (l.retryCount < n || n == 0) && env.reply(l.requests) == BrokenBody ==>
      CheckResponse(n, env, l, patience) == GaveUp(Network, l.requests)
    ensures n < 0 ==> CheckResponse(n, env, StreamStart, patience) == GaveUp(Internal, 0)
  {}

  /** The same for the stream constructor: what an error document leads to. */
  lemma {:induction false} DocumentDecides(n: int, env: StreamEnv, l: StreamLoop, patience: nat, code: int)
    requires env.retryCodes == DefaultRetryCodes && (l.retryCount < n || n == 0) && patience > 0
    requires env.reply(l.requests) == ErrorDocument(code)
    ensures var refreshing := l.refreshes == 0 && (code == 110 || code == 111);
      var goesOn := env.resetWorks(l.requests) && (if refreshing then env.refresh.RefreshDone? else CostsAttempt(code));
      if goesOn then
        CheckResponse(n, env, l, patience) ==
        CheckResponse(n, env, StreamLoop(l.requests + 1, l.retryCount + (if refreshing then 0 else 1),
                                         l.refreshes + (if refreshing then 1 else 0), Some(Api(code))), patience - 1)
      else
        CheckResponse(n, env, l, patience) ==
        GaveUp(if refreshing && env.refresh.RefreshFailed? then env.refresh.error
               else if !refreshing && !CostsAttempt(code) then Api(code) else Network, l.requests)
  {}

  /**
   * The stream constructor sends at most one request more than its retry count, opens only a stream,
   * and gives up on a stream only when it was the answer to the very last request it may send.
   */
  lemma {:induction false} StreamRetryBound(n: int, env: StreamEnv, patience: nat)
    requires n >= 1 && patience > n + 1
    ensures var end := CheckResponse(n, env, StreamStart, patience);
      && !end.StillTrying? && end.requests <= n + 1
      && (end.Opened? ==> env.reply(end.requests) == EventStream)
      && (end.GaveUp? && env.reply(end.requests) == EventStream ==> end.requests >= n)
  {
    CheckConcludes(n, env, StreamStart, patience);
  }

  predicate TokenReply(r: Reply) { r.ErrorDocument? && TokenCode(r.code) }

  /** A token code came before request k, so the free retry is used up. */
  ghost predicate TokenBefore(env: StreamEnv, k: nat) {
    exists j: nat :: j < k && TokenReply(env.reply(j))
  }

  lemma {:induction false} TokenBeforeNext(env: StreamEnv, k: nat)
    ensures TokenBefore(env, k + 1) <==> TokenBefore(env, k) || TokenReply(env.reply(k))
  {
    if TokenReply(env.reply(k)) { assert k < k + 1; }
    if TokenBefore(env, k) {
      var j: nat :| j < k && TokenReply(env.reply(j));
      assert j < k + 1;
    }
  }

  /** The answer to request k leads to another request, if the count allows it. */
  ghost predicate LeadsOn(env: StreamEnv, k: nat) {
    && env.reply(k).ErrorDocument? && env.resetWorks(k)
    && if TokenReply(env.reply(k)) && !TokenBefore(env, k) then env.refresh.RefreshDone?
       else env.reply(k).code in env.retryCodes
  }

  /** From request `from` on all answers before request k lead on, and that of request k is a stream. */
  ghost predicate StreamAt(env: StreamEnv, from: nat, k: nat) {
    from <= k && env.reply(k) == EventStream && forall j: nat :: from <= j < k ==> LeadsOn(env, j)
  }

  /** The answer to request k is looked at: the count is above k, or one below with the free retry used. */
  ghost predicate LookedAt(n: int, env: StreamEnv, k: nat) {
    n == 0 || k < n + if TokenBefore(env, k) then 1 else 0
  }

  /** Every request but the first was a counted retry or the free one, after an answer that was looked at. */
  ghost predicate Tallied(n: int, env: StreamEnv, l: StreamLoop) {
    && l.refreshes == (if TokenBefore(env, l.requests) then 1 else 0)
    && l.requests == l.retryCount + l.refreshes
    && (n > 0 ==> l.retryCount <= n)
    && (l.requests > 0 ==> LookedAt(n, env, l.requests - 1))
  }

  function NextRequest(l: StreamLoop, code: int): StreamLoop {
    var refreshNow := l.refreshes == 0 && TokenCode(code);
    StreamLoop(l.requests + 1, l.retryCount + (if refreshNow then 0 else 1),
               l.refreshes + (if refreshNow then 1 else 0), Some(Api(code)))
  }

  /** One round of the loop that does not end it. */
  lemma {:induction false} RoundLeadsOn(n: int, env: StreamEnv, l: StreamLoop, patience: nat)
    requires Tallied(n, env, l) && (n == 0 || l.retryCount < n) && patience > 0 && LeadsOn(env, l.requests)
    ensures CheckResponse(n, env, l, patience) ==
      CheckResponse(n, env, NextRequest(l, env.reply(l.requests).code), patience - 1)
    ensures Tallied(n, env, NextRequest(l, env.reply(l.requests).code))
  {
    TokenBeforeNext(env, l.requests);
  }

  /** And one that ends it. */
  lemma {:induction false} RoundEnds(n: int, env: StreamEnv, l: StreamLoop, patience: nat)
    requires Tallied(n, env, l) && (n == 0 || l.retryCount < n) && patience > 0 && !LeadsOn(env, l.requests)
    ensures if env.reply(l.requests) == EventStream then CheckResponse(n, env, l, patience) == Opened(l.requests)
            else CheckResponse(n, env, l, patience).GaveUp?
  {}

  lemma {:induction false} OpensFrom(n: int, env: StreamEnv, l: StreamLoop, patience: nat, k: nat)
    requires n >= 0 && Tallied(n, env, l)
    requires if n == 0 then patience > k - l.requests else patience > n - l.retryCount + 1 - l.refreshes
    ensures CheckResponse(n, env, l, patience) == Opened(k) <==> StreamAt(env, l.requests, k) && LookedAt(n, env, k)
    decreases patience
  {
    hide TokenBefore, LeadsOn;
    var m := l.requests;
    if n > 0 && l.retryCount == n {
      assert k >= m && k < n + 1 ==> k == m;
    } else if patience == 0 {
    } else if LeadsOn(env, m) {
      LeadsOnNoStream(env, m);
      RoundLeadsOn(n, env, l, patience);
      OpensFrom(n, env, NextRequest(l, env.reply(m).code), patience - 1, k);
      assert StreamAt(env, m, k) <==> StreamAt(env, m + 1, k);
    } else {
      RoundEnds(n, env, l, patience);
    }
  }

  lemma {:induction false} LeadsOnNoStream(env: StreamEnv, k: nat)
    ensures LeadsOn(env, k) ==> env.reply(k).ErrorDocument?
  {}

  /**
   * The stream that answers request k is opened if and only if every answer before it led to another
   * request and it is looked at: k is below the count, or equal to it after a token was refreshed.
   */
  lemma {:induction false} OpensIff(n: int, env: StreamEnv, patience: nat, k: nat)
    requires n >= 0 && patience > if n == 0 then k else n + 1
    ensures CheckResponse(n, env, StreamStart, patience) == Opened(k) <==> StreamAt(env, 0, k) && LookedAt(n, env, k)
  {
    OpensFrom(n, env, StreamStart, patience, k);
  }

  lemma {:induction false} IgnoredFrom(n: int, env: StreamEnv, l: StreamLoop, patience: nat, k: nat)
    requires n >= 1 && Tallied(n, env, l)
    requires patience > n - l.retryCount + 1 - l.refreshes
    ensures var end := CheckResponse(n, env, l, patience);
      (end.GaveUp? && end.requests == k && env.reply(k) == EventStream) <==>
      (StreamAt(env, l.requests, k) && LastSent(n, env, k))
    decreases patience
  {
    hide TokenBefore, LeadsOn;
    var m := l.requests;
    if l.retryCount == n {
      if k >= m { Overrun(n, env, l, k); }
    } else if LeadsOn(env, m) {
      LeadsOnNoStream(env, m);
      RoundLeadsOn(n, env, l, patience);
      IgnoredFrom(n, env, NextRequest(l, env.reply(m).code), patience - 1, k);
      assert StreamAt(env, m, k) <==> StreamAt(env, m + 1, k);
    } else {
      RoundEndsAt(n, env, l, patience);
    }
  }

  /** Request k is sent, since the answer before it was looked at, but its own answer is not. */
  ghost predicate LastSent(n: int, env: StreamEnv, k: nat) {
    k > 0 && LookedAt(n, env, k - 1) && !LookedAt(n, env, k)
  }

  /** A stream is at hand and is not opened if and only if it answers the last request that may be sent. */
  lemma {:induction false} IgnoredIff(n: int, env: StreamEnv, patience: nat, k: nat)
    requires n >= 1 && patience > n + 1
    ensures var end := CheckResponse(n, env, StreamStart, patience);
      (end.GaveUp? && end.requests == k && env.reply(k) == EventStream) <==>
      (StreamAt(env, 0, k) && LastSent(n, env, k))
  {
    IgnoredFrom(n, env, StreamStart, patience, k);
  }

  lemma {:induction false} RoundEndsAt(n: int, env: StreamEnv, l: StreamLoop, patience: nat)
    requires Tallied(n, env, l) && l.retryCount < n && patience > 0 && !LeadsOn(env, l.requests)
    ensures CheckResponse(n, env, l, patience).GaveUp? ==> CheckResponse(n, env, l, patience).requests == l.requests
    ensures CheckResponse(n, env, l, patience).GaveUp? <==> env.reply(l.requests) != EventStream
  {}

  /** All counted requests are used up: only the stream at hand is ignored. */
  lemma {:induction false} Overrun(n: int, env: StreamEnv, l: StreamLoop, k: nat)
    requires n >= 1 && Tallied(n, env, l) && l.retryCount == n && k >= l.requests
    ensures LastSent(n, env, k) <==> k == l.requests
  {}

  /** The last request is sent and its answer not looked at: a stream that came is reported as an error. */
  lemma {:induction false} LastStreamIsIgnored(n: int) returns (env: StreamEnv)
    requires n >= 1
    ensures CheckResponse(n, env, StreamStart, n + 2) == GaveUp(Api(18), n) && env.reply(n) == EventStream
  {
    env := StreamEnv((k: nat) => if k < n then ErrorDocument(18) else EventStream, _ => true, RefreshDone, DefaultRetryCodes);
    LimitReached(n, env, StreamStart, n + 2);
  }

  lemma {:induction false} LimitReached(n: int, env: StreamEnv, l: StreamLoop, patience: nat)
    requires n >= 1 && l.refreshes == 0 && l.requests == l.retryCount <= n && patience > n - l.retryCount
    requires (forall k: nat :: k < n ==> env.reply(k) == ErrorDocument(18)) && (forall k: nat :: env.resetWorks(k))
    requires 18 in env.retryCodes && (l.requests > 0 ==> l.apiError == Some(Api(18)))
    ensures CheckResponse(n, env, l, patience) == GaveUp(Api(18), n)
    decreases patience
  {
    if l.retryCount < n {
      LimitReached(n, env, StreamLoop(l.requests + 1, l.retryCount + 1, 0, Some(Api(18))), patience - 1);
    }
  }

  // ---- the code ----

  /** The loop of the stream constructor, stopped from outside after `patience` rounds. */
  method CheckResponseError(n: int, env: StreamEnv, patience: nat) returns (end: StreamEnd)
    ensures end == CheckResponse(n, env, StreamStart, patience)
  {
    var tokenRefreshed, requests, retryCount, left: nat := false, 0, 0, patience;
    var apiError: Option<Error> := None;
    while retryCount < n || n == 0
      invariant retryCount >= 0
      invariant CheckResponse(n, env, StreamStart, patience) ==
        CheckResponse(n, env, StreamLoop(requests, retryCount, if tokenRefreshed then 1 else 0, apiError), left)
      decreases left
    {
      if left == 0 { return StillTrying; }
      left := left - 1;
      var reply := env.reply(requests);
      if reply.EventStream? { return Opened(requests); }
      if reply.BrokenBody? { return GaveUp(Network, requests); }
      apiError := Some(Api(reply.code));
      if !tokenRefreshed && TokenCode(reply.code) {
        tokenRefreshed := true;
        if env.refresh.RefreshFailed? { return GaveUp(env.refresh.error, requests); }
        retryCount := retryCount - 1;
      } else if reply.code !in env.retryCodes {
        return GaveUp(Api(reply.code), requests);
      }
      if !env.resetWorks(requests) { return GaveUp(Network, requests); }
      requests := requests + 1;
      retryCount := retryCount + 1;
    }
    end := GaveUp(if apiError.Some? then apiError.value else InternalError, requests);
  }

  class RequestLoop {
    const env: Env
    var attempts: nat
    var tokenRefreshed: bool
    var err: Option<Error>
    ghost var refreshes: nat

    constructor (env: Env)
      ensures this.env == env && attempts == 0 && !tokenRefreshed && err == None && refreshes == 0
    {
      this.env := env;
      attempts, tokenRefreshed, err, refreshes := 0, false, None, 0;
    }

    /** The function that is retried; it shares the error and the flag with its surroundings. */
    method RequestFunc() returns (verdict: Verdict)
      requires tokenRefreshed <==> refreshes > 0
      modifies this
      ensures Round(verdict, err, refreshes > old(refreshes)) == Once(env, old(attempts), old(tokenRefreshed))
      ensures attempts == old(attempts) + 1 && (tokenRefreshed <==> refreshes > 0)
      ensures old(refreshes) <= refreshes <= old(refreshes) + 1
    {
      var attempt := env.attempt(attempts);
      attempts := attempts + 1;
      if attempt.Broken? {
        err := Some(attempt.error);
        return Failure(attempt.error);
      }
      if attempt.code != 0 {
        err := Some(Api(attempt.code));
        if !tokenRefreshed && TokenCode(attempt.code) {
          tokenRefreshed := true;
          refreshes := refreshes + 1;
          if env.refresh.RefreshFailed? { return Failure(env.refresh.error); }
          return TryAgain;
        }
        return Failure(Api(attempt.code));
      }
      err := None;
      verdict := Success;
    }

    /** The loop, stopped from outside after `patience` attempts, and the error it is reported with. */
    method RequestResource(n: int, patience: nat) returns (ended: bool, reported: Option<Error>)
      requires attempts == 0 && !tokenRefreshed && err == None && refreshes == 0
      modifies this
      ensures var run := WithRetry(n, env, patience);
        && (ended <==> run.Ended?)
        && attempts == run.loop.attempts && refreshes == run.loop.refreshes
        && (ended ==> reported == Reported(run.loop))
    {
      var retryErr: Option<Error> := None;
      var retryCount, left: nat := 0, patience;
      while retryCount < n || n == 0
        invariant tokenRefreshed <==> refreshes > 0
        invariant WithRetry(n, env, patience) == RunLoop(n, env, Loop(attempts, retryCount, refreshes, retryErr, err), left)
        decreases left
      {
        if left == 0 { return false, None; }
        left := left - 1;
        var verdict := RequestFunc();
        if verdict.Success? { return true, None; }
        if verdict.TryAgain? { continue; }
        retryErr := Some(verdict.error);
        if verdict.error.Api? && verdict.error.code !in env.retryCodes { return true, err; }
        retryCount := retryCount + 1;
      }
      ended := true;
      reported := if retryErr.Some? then err else None;
    }
  }
}
