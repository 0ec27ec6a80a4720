/**
 * The access token cache shared by all callers. A lookup and a refresh each run under the lock; a
 * caller that misses looks again, under the lock, before it asks upstream.
 */
module AccessTokens {
  import opened Options

  datatype Credential = Credential(ak: string, sk: string)

  datatype AccessToken = AccessToken(token: string, lastUpdate: nat)

  /** What upstream answers: a token, or any of the ways to fail. */
  datatype Upstream = Issued(token: string) | Refused

  /** A successful upstream refresh: when it was decided and when the token was stored. */
  datatype Refresh = Refresh(cred: Credential, token: string, decided: nat, stored: nat)

  datatype Cache = Cache(tokens: map<Credential, AccessToken>, configToken: Option<string>, now: nat, log: seq<Refresh>)

  datatype Answer = Answer(cache: Cache, token: Option<string>)

  function Lookup(c: Cache, cred: Credential): Option<string> {
    if cred in c.tokens then Some(c.tokens[cred].token) else None
  }

  /** A refresh is skipped while the stored token is younger than the minimum interval. */
  predicate Skips(c: Cache, cred: Credential, current: nat, interval: nat) {
    cred in c.tokens && current - c.tokens[cred].lastUpdate < interval
  }

  /** The refresh under the lock; `wait` passes before the clock is read, `call` during the request. */
  function RefreshToken(c: Cache, cred: Credential, interval: nat, upstream: Upstream, wait: nat, call: nat): Answer {
    var current := c.now + wait;
    if Skips(c, cred, current, interval) then Answer(c.(now := current), Lookup(c, cred))
    else
      var later := current + call;
      match upstream
      case Refused => Answer(c.(now := later), None)
      case Issued(token) =>
        Answer(Cache(c.tokens[cred := AccessToken(token, later)], Some(token), later,
                     c.log + [Refresh(cred, token, current, later)]),
               Some(token))
  }

  // ---- interleavings ----

  /** Callers on their way to a refresh wait for the lock. */
  datatype System = System(cache: Cache, waiting: map<nat, Credential>)

  ghost predicate Init(s: System) {
    exists now :: s == System(Cache(map[], None, now, []), map[])
  }

  /** GetAccessToken: a hit returns at once, a miss goes on to refresh. */
  function GetToken(s: System, tid: nat, cred: Credential): System {
    if cred in s.cache.tokens then s else AskRefresh(s, tid, cred)
  }

  function AskRefresh(s: System, tid: nat, cred: Credential): System {
    s.(waiting := s.waiting[tid := cred])
  }

  ghost predicate LockStep(s: System, s': System, interval: nat, tid: nat, upstream: Upstream, wait: nat, call: nat)
    requires tid in s.waiting
  {
    s' == System(RefreshToken(s.cache, s.waiting[tid], interval, upstream, wait, call).cache, s.waiting - {tid})
  }

  ghost predicate Next(s: System, s': System, interval: nat) {
    || (s.cache.now <= s'.cache.now && s' == s.(cache := s.cache.(now := s'.cache.now)))
    || (exists tid, cred :: tid !in s.waiting && (s' == GetToken(s, tid, cred) || s' == AskRefresh(s, tid, cred)))
    || (exists tid, upstream, wait, call :: tid in s.waiting && LockStep(s, s', interval, tid, upstream, wait, call))
  }

  ghost predicate Run(run: seq<System>, interval: nat) {
    run != [] && Init(run[0]) && forall i :: 0 <= i < |run| - 1 ==> Next(run[i], run[i + 1], interval)
  }

  /** The last successful refresh of a credential. */
  function LastRefresh(log: seq<Refresh>, cred: Credential): Option<Refresh> {
    if log == [] then None
    else if log[|log| - 1].cred == cred then Some(log[|log| - 1])
    else LastRefresh(log[..|log| - 1], cred)
  }

  /** Each refresh was decided at least the interval after the one before it of the same credential. */
  ghost predicate Spaced(log: seq<Refresh>, interval: nat) {
    log == [] ||
    var n := |log| - 1;
    var last := LastRefresh(log[..n], log[n].cred);
    && Spaced(log[..n], interval)
    && log[n].decided <= log[n].stored
    && (last.Some? ==> last.value.stored + interval <= log[n].decided)
  }

  /** The cache holds, for every credential, exactly what its last refresh brought. */
  ghost predicate Inv(c: Cache, interval: nat) {
    && Spaced(c.log, interval)
    && (forall cred :: cred in c.tokens <==> LastRefresh(c.log, cred).Some?)
    && (forall cred :: cred in c.tokens ==>
          var r := LastRefresh(c.log, cred).value;
          r.cred == cred && c.tokens[cred] == AccessToken(r.token, r.stored) && r.stored <= c.now)
    && c.configToken == (if c.log == [] then None else Some(c.log[|c.log| - 1].token))
  }

  lemma {:induction false} LastRefreshMore(log: seq<Refresh>, r: Refresh, cred: Credential)
    ensures LastRefresh(log + [r], cred) == if r.cred == cred then Some(r) else LastRefresh(log, cred)
  {
    assert (log + [r])[..|log|] == log;
  }

  lemma {:induction false} RefreshKeepsInv(c: Cache, cred: Credential, interval: nat, upstream: Upstream, wait: nat, call: nat)
    requires Inv(c, interval)
    ensures Inv(RefreshToken(c, cred, interval, upstream, wait, call).cache, interval)
  {
    hide Inv, LastRefresh;
    var current := c.now + wait;
    LaterKeepsInv(c, interval, current);
    LaterKeepsInv(c, interval, current + call);
    if !Skips(c, cred, current, interval) && upstream.Issued? {
      StoredKeepsInv(c, Refresh(cred, upstream.token, current, current + call), interval);
    }
  }

  lemma {:induction false} LaterKeepsInv(c: Cache, interval: nat, later: nat)
    requires Inv(c, interval) && c.now <= later
    ensures Inv(c.(now := later), interval)
  {}

  /** A refresh that was not skipped is put behind the log and into the cache. */
  lemma {:induction false} StoredKeepsInv(c: Cache, r: Refresh, interval: nat)
    requires Inv(c, interval) && c.now <= r.decided <= r.stored && !Skips(c, r.cred, r.decided, interval)
    ensures Inv(Cache(c.tokens[r.cred := AccessToken(r.token, r.stored)], Some(r.token), r.stored, c.log + [r]), interval)
  {
    hide LastRefresh;
    assert (c.log + [r])[..|c.log|] == c.log;
    forall other ensures LastRefresh(c.log + [r], other) == if other == r.cred then Some(r) else LastRefresh(c.log, other) {
      LastRefreshMore(c.log, r, other);
    }
  }

  lemma {:induction false} NextKeepsInv(s: System, s': System, interval: nat)
    requires Inv(s.cache, interval) && Next(s, s', interval)
    ensures Inv(s'.cache, interval)
  {
    if s.cache.now <= s'.cache.now && s' == s.(cache := s.cache.(now := s'.cache.now)) {
    } else if tid, cred :| tid !in s.waiting && (s' == GetToken(s, tid, cred) || s' == AskRefresh(s, tid, cred)) {
    } else {
      var tid, upstream, wait, call :| tid in s.waiting && LockStep(s, s', interval, tid, upstream, wait, call);
      RefreshKeepsInv(s.cache, s.waiting[tid], interval, upstream, wait, call);
    }
  }

  lemma {:induction false} RunKeepsInv(run: seq<System>, interval: nat)
    requires Run(run, interval)
    ensures Inv(run[|run| - 1].cache, interval)
  {
    hide Inv, Next;
    var n := |run| - 1;
    if n == 0 {
      InitInv(run[0], interval);
    } else {
      assert Next(run[n - 1], run[n], interval);
      RunKeepsInv(run[..n], interval);
      NextKeepsInv(run[n - 1], run[n], interval);
    }
  }

  lemma {:induction false} InitInv(s: System, interval: nat)
    requires Init(s)
    ensures Inv(s.cache, interval)
  {}

  // ---- the theorems ----

  /** Any two successful refreshes of one credential are at least the interval apart, in every run. */
  lemma {:induction false} RefreshesAreSpaced(run: seq<System>, interval: nat, i: nat, j: nat)
    requires Run(run, interval)
    requires i < j < |run[|run| - 1].cache.log|
    requires run[|run| - 1].cache.log[i].cred == run[|run| - 1].cache.log[j].cred
    ensures run[|run| - 1].cache.log[i].stored + interval <= run[|run| - 1].cache.log[j].decided
    ensures run[|run| - 1].cache.log[j].decided <= run[|run| - 1].cache.log[j].stored
  {
    RunKeepsInv(run, interval);
    SpacedPair(run[|run| - 1].cache.log, interval, i, j);
  }

  lemma {:induction false} SpacedPair(log: seq<Refresh>, interval: nat, i: nat, j: nat)
    requires Spaced(log, interval) && i < j < |log| && log[i].cred == log[j].cred
    ensures log[i].stored + interval <= log[j].decided <= log[j].stored
    decreases |log|
  {
    var n := |log| - 1;
    if j < n {
      SpacedPair(log[..n], interval, i, j);
    } else {
      LastIsLatest(log[..n], interval, i);
    }
  }

  lemma {:induction false} LastIsLatest(log: seq<Refresh>, interval: nat, i: nat)
    requires Spaced(log, interval) && i < |log|
    ensures LastRefresh(log, log[i].cred).Some? && log[i].stored <= LastRefresh(log, log[i].cred).value.stored
    decreases |log|
  {
    var n := |log| - 1;
    if i < n {
      LastIsLatest(log[..n], interval, i);
    }
  }

  /**
   * A refresh that falls within the interval after the last one returns the token of that one, and
   * calls nobody; otherwise upstream decides, and no other credential is touched.
   */
  lemma {:induction false} WithinInterval(run: seq<System>, interval: nat, cred: Credential, upstream: Upstream,
                                         wait: nat, call: nat)
    requires Run(run, interval)
    ensures var c := run[|run| - 1].cache;
      var last := LastRefresh(c.log, cred);
      var r := RefreshToken(c, cred, interval, upstream, wait, call);
      if last.Some? && c.now + wait < last.value.stored + interval then
        r.token == Some(last.value.token) && r.cache.tokens == c.tokens && r.cache.log == c.log
      else
        && r.token == (if upstream.Issued? then Some(upstream.token) else None)
        && (r.token == None ==> r.cache.tokens == c.tokens && r.cache.log == c.log)
        && forall other :: other != cred ==>
             (other in r.cache.tokens <==> other in c.tokens) &&
             (other in c.tokens ==> r.cache.tokens[other] == c.tokens[other])
  {
    RunKeepsInv(run, interval);
  }

  /** A caller goes on to a refresh exactly if the credential has never been refreshed. */
  lemma {:induction false} WaitsIff(run: seq<System>, interval: nat, tid: nat, cred: Credential)
    requires Run(run, interval) && tid !in run[|run| - 1].waiting
    ensures var s := run[|run| - 1];
      GetToken(s, tid, cred) ==
      if LastRefresh(s.cache.log, cred).Some? then s else s.(waiting := s.waiting + map[tid := cred])
  {
    RunKeepsInv(run, interval);
    assert forall w: map<nat, Credential> :: w[tid := cred] == w + map[tid := cred];
  }

  /** The token is stored with the time at which it came: the interval begins when the request is over. */
  lemma {:induction false} IntervalFromAnswer(c: Cache, cred: Credential, interval: nat, token: string, wait: nat, call: nat,
                                             later: nat, other: Credential)
    requires !Skips(c, cred, c.now + wait, interval) && later >= c.now + wait + call
    ensures var c' := RefreshToken(c, cred, interval, Issued(token), wait, call).cache;
      && c'.now == c.now + wait + call
      && Lookup(c', cred) == Some(token) && c'.configToken == Some(token)
      && (Skips(c', cred, later, interval) <==> later < c.now + wait + call + interval)
      && (other != cred ==> Lookup(c', other) == Lookup(c, other))
      && (other != cred ==> (Skips(c', other, later, interval) <==> Skips(c, other, later, interval)))
      && c'.log == c.log + [Refresh(cred, token, c.now + wait, c.now + wait + call)]
  {}

  /** A refresh within the interval looks at the clock, and gives the token that is there. */
  lemma {:induction false} SkippedChangesNothing(c: Cache, cred: Credential, interval: nat, upstream: Upstream, wait: nat, call: nat)
    requires Skips(c, cred, c.now + wait, interval)
    ensures RefreshToken(c, cred, interval, upstream, wait, call) ==
      Answer(c.(now := c.now + wait), Some(c.tokens[cred].token))
  {}

  /** A refresh that is refused takes its time and changes nothing. */
  lemma {:induction false} RefusedChangesNothing(c: Cache, cred: Credential, interval: nat, wait: nat, call: nat)
    requires !Skips(c, cred, c.now + wait, interval)
    ensures RefreshToken(c, cred, interval, Refused, wait, call) == Answer(c.(now := c.now + wait + call), None)
  {}

  /** A lookup hits exactly when the credential was refreshed before, and gives that token. */
  lemma {:induction false} LookupGivesLast(run: seq<System>, interval: nat, cred: Credential)
    requires Run(run, interval)
    ensures var c := run[|run| - 1].cache;
      Lookup(c, cred) == match LastRefresh(c.log, cred) case Some(r) => Some(r.token) case None => None
  {
    RunKeepsInv(run, interval);
  }

  // ---- the object ----

  class AuthManager {
    var tokenMap: map<Credential, AccessToken>
    var configToken: Option<string>
    var now: nat
    ghost var log: seq<Refresh>

    ghost function State(): Cache
      reads this
    {
      Cache(tokenMap, configToken, now, log)
    }

    constructor (now: nat)
      ensures State() == Cache(map[], None, now, [])
    {
      tokenMap, configToken, log := map[], None, [];
      this.now := now;
    }

    method GetAccessToken(cred: Credential, interval: nat, upstream: Upstream, wait: nat, call: nat)
      returns (token: Option<string>)
      modifies this
      ensures cred in old(tokenMap) ==> State() == old(State()) && token == Lookup(old(State()), cred)
      ensures cred !in old(tokenMap) ==>
        Answer(State(), token) == RefreshToken(old(State()), cred, interval, upstream, wait, call)
    {
      if cred in tokenMap { return Some(tokenMap[cred].token); }
      token := GetAccessTokenWithRefresh(cred, interval, upstream, wait, call);
    }

    method GetAccessTokenWithRefresh(cred: Credential, interval: nat, upstream: Upstream, wait: nat, call: nat)
      returns (token: Option<string>)
      modifies this
      ensures Answer(State(), token) == RefreshToken(old(State()), cred, interval, upstream, wait, call)
    {
      now := now + wait;
      var current := now;
      if cred in tokenMap {
        if current - tokenMap[cred].lastUpdate < interval { return Some(tokenMap[cred].token); }
      }
      now := now + call;
      if upstream.Refused? { return None; }
      tokenMap := tokenMap[cred := AccessToken(upstream.token, now)];
      configToken := Some(upstream.token);
      log := log + [Refresh(cred, upstream.token, current, now)];
      token := Some(upstream.token);
    }
  }
}
