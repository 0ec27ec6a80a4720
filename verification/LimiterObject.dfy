/** The synchronous limiter as an object with its fields, against the specification of its operations. */
module LimiterObject {
  import opened Numbers
  import opened TokenLimiter

  /** The wall clock and time.sleep: reading may find any later time, sleeping lasts at least as asked. */
  class Clock {
    var now: nat

    constructor (start: nat)
      ensures now == start
    {
      now := start;
    }

    method Read() returns (t: nat)
      modifies this
      ensures t == now && now >= old(now)
    {
      var passed: nat :| true;
      now := now + passed;
      t := now;
    }

    method Sleep(duration: nat)
      modifies this
      ensures now >= old(now) + duration
    {
      var longer: nat :| true;
      now := now + duration + longer;
    }
  }

  datatype Verdict = Disabled | Granted | TooLarge | GaveUp

  class SyncTokenLimiter {
    const originalLimit: int
    const bufferRatio: real
    const clock: Clock
    var tokenLimit: int
    var tokenCurrent: int
    var lastCheck: nat
    var hasBeenReset: bool
    /** The budget entries this object has gone through; bookkeeping for the specification only. */
    ghost var log: seq<Entry>

    ghost function State(): Limiter
      reads this
    {
      Limiter(tokenLimit, originalLimit, bufferRatio, hasBeenReset, tokenCurrent, lastCheck)
    }

    constructor (tokenPerMinute: int, configured: int, bufferRatio: real, forcingDisable: bool, clock: Clock)
      ensures State() == New(tokenPerMinute, configured, bufferRatio, forcingDisable, clock.now)
      ensures this.clock == clock && log == [Base(tokenLimit, clock.now)]
    {
      var limit := tokenPerMinute;
      if limit <= 0 { limit := configured; }
      originalLimit := limit;
      this.bufferRatio := bufferRatio;
      this.clock := clock;
      var buffered := Buffered(limit, bufferRatio);
      tokenLimit := buffered;
      hasBeenReset := forcingDisable;
      tokenCurrent := buffered;
      lastCheck := clock.now;
      log := [Base(buffered, clock.now)];
    }

    method RefreshTimeAndToken()
      requires lastCheck <= clock.now
      modifies this, clock
      ensures clock.now >= old(clock.now)
      ensures State() == Refreshed(old(State()), clock.now)
      ensures log == Checked(old(State()), old(log), clock.now)
    {
      var currentTime := clock.Read();
      log := Checked(State(), log, currentTime);
      if MinuteOfHour(lastCheck) != MinuteOfHour(currentTime) || currentTime - lastCheck >= 60_000_000 {
        tokenCurrent := tokenLimit;
      }
      lastCheck := currentTime;
    }

    /**
     * Takes tokens. The tests before the lock read fields that other threads may change before the
     * lock is taken; those interleavings are the subject of the runs, here nobody comes in between.
     */
    method Decline(tokenUsed: int) returns (verdict: Verdict, ghost delays: seq<nat>)
      requires lastCheck <= clock.now
      modifies this, clock
      ensures lastCheck <= clock.now
      ensures verdict == Disabled <==> old(State()).Closed()
      ensures verdict == TooLarge <==> !old(State()).Closed() && tokenUsed > old(tokenLimit)
      ensures verdict.Disabled? || verdict.TooLarge? ==> State() == old(State()) && log == old(log)
      ensures verdict.Granted? || verdict.GaveUp? ==>
        |delays| == 4 &&
        Declined(State(), log, clock.now, verdict.Granted?) ==
        DeclineLoop(old(State()), old(log), old(clock.now), tokenUsed, delays, 3)
    {
      delays := [];
      if tokenLimit <= 0 { return Disabled, delays; }
      if tokenUsed > tokenLimit { return TooLarge, delays; }
      verdict, delays := DeclineLocked(tokenUsed);
    }

    /** The part under the lock: three rounds of checking and sleeping. */
    method DeclineLocked(tokenUsed: int) returns (verdict: Verdict, ghost delays: seq<nat>)
      requires lastCheck <= clock.now
      modifies this, clock
      ensures lastCheck <= clock.now
      ensures verdict.Granted? || verdict.GaveUp?
      ensures |delays| == 4
      ensures Declined(State(), log, clock.now, verdict.Granted?) ==
        DeclineLoop(old(State()), old(log), old(clock.now), tokenUsed, delays, 3)
    {
      hide AfterFailures, DeclineLoop, Checked;
      ghost var l0, log0, now0 := State(), log, clock.now;
      ghost var passed: seq<nat>, wakeUp: nat := [], clock.now;
      NoFailuresYet(l0, log0, now0, tokenUsed);
      for i := 0 to 3
        invariant lastCheck <= clock.now && |passed| == i && wakeUp <= clock.now
        invariant AfterFailures(l0, log0, now0, tokenUsed, passed) == Declined(State(), log, wakeUp, false)
      {
        RefreshTimeAndToken();
        ghost var delay: nat := clock.now - wakeUp;
        if tokenUsed <= tokenCurrent {
          ghost var unused: seq<nat> := seq(3 - i, _ => 0);
          delays := passed + ([delay] + unused);
          GrantAfterFailures(l0, log0, now0, tokenUsed, passed, delay, unused, 2 - i);
          tokenCurrent := tokenCurrent - tokenUsed;
          log := log + [Entry.Granted(tokenUsed, clock.now)];
          return Verdict.Granted, delays;
        }
        var interval := 60 - SecondOfMinute(lastCheck);
        wakeUp := clock.now + SleepTime(State());
        clock.Sleep(interval * 1_000_000);
        OneMoreFailure(l0, log0, now0, tokenUsed, passed, delay);
        passed := passed + [delay];
      }
      delays := passed + [clock.now - wakeUp];
      AllFailed(l0, log0, now0, tokenUsed, passed, clock.now - wakeUp);
      verdict := GaveUp;
    }

    method Clear() returns (done: bool)
      modifies this
      ensures done && log == old(log)
      ensures State() == if old(State()).Closed() then old(State()) else Cleared(old(State()))
      ensures tokenLimit == old(tokenLimit) && tokenCurrent == if tokenLimit > 0 then 0 else old(tokenCurrent)
    {
      if tokenLimit <= 0 { return true; }
      tokenCurrent := 0;
      done := true;
    }

    /** `acquired` tells whether the lock became free within a second. */
    method Compensate(compensation: int, acquired: bool)
      modifies this
      ensures State() ==
        if old(State()).Closed() || !acquired then old(State()) else Compensated(old(State()), compensation)
      ensures tokenLimit == old(tokenLimit)
      ensures tokenCurrent == old(tokenCurrent) + if tokenLimit > 0 && acquired then compensation else 0
      ensures log == old(log) +
        if !old(State()).Closed() && acquired && compensation > 0 then [Credited(compensation)] else []
    {
      if tokenLimit <= 0 { return; }
      if acquired {
        tokenCurrent := tokenCurrent + compensation;
        if compensation > 0 { log := log + [Credited(compensation)]; }
      }
    }

    method ResetOnceTo(tpm: int)
      modifies this
      ensures State() == ResetOnce(old(State()), tpm)
      ensures log == old(log) +
        if old(State()).Closed() && !State().Closed() then [Base(tokenLimit, clock.now)] else []
    {
      if hasBeenReset { return; }
      // the lock is taken here and the flag tested again
      if hasBeenReset { return; }
      if originalLimit == tpm {
        hasBeenReset := true;
        return;
      }
      var target := if tokenLimit > 0 then Min(originalLimit, tpm) else tpm;
      target := Max(target, 0);
      var diff := tokenLimit - tokenCurrent;
      tokenLimit := Buffered(target, bufferRatio);
      tokenCurrent := Max(tokenLimit - diff, 0);
      hasBeenReset := true;
      if old(State()).Closed() && tokenLimit > 0 { log := log + [Base(tokenLimit, clock.now)]; }
    }
  }
}
