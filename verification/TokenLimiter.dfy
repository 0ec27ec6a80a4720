/**
 * The tokens-per-minute limiter: its state, its operations under the lock, and the object.
 * Time is counted in microseconds; the clock never runs backwards.
 */
module TokenLimiter {
  import opened Numbers

  /** The calendar minute of an instant, counted from the epoch. */
  function Minute(t: nat): nat { t / 60_000_000 }

  /** datetime.minute and datetime.second. */
  function MinuteOfHour(t: nat): nat { Minute(t) % 60 }
  function SecondOfMinute(t: nat): nat { t / 1_000_000 % 60 }

  function Buffered(tpm: int, ratio: real): int {
    Truncate(tpm as real * (1.0 - ratio))
  }

  datatype Limiter = Limiter(limit: int, original: int, ratio: real, hasBeenReset: bool, current: int, lastCheck: nat) {
    predicate Closed() { limit <= 0 }
  }

  /** A new limiter; without a limit of its own it takes the configured one. */
  function New(limit: int, configured: int, ratio: real, disabled: bool, now: nat): Limiter {
    var original := if limit <= 0 then configured else limit;
    Limiter(Buffered(original, ratio), original, ratio, disabled, Buffered(original, ratio), now)
  }

  predicate Refills(lastCheck: nat, now: nat) {
    MinuteOfHour(lastCheck) != MinuteOfHour(now) || now - lastCheck >= 60_000_000
  }

  function Refreshed(l: Limiter, now: nat): Limiter {
    l.(current := if Refills(l.lastCheck, now) then l.limit else l.current, lastCheck := now)
  }

  /** How long decline sleeps after a check: to the next full minute, in whole seconds. */
  function SleepTime(l: Limiter): nat {
    (60 - SecondOfMinute(l.lastCheck)) * 1_000_000
  }

  /** What happened to the budget: it was set to a limit, spent from, or credited. */
  datatype Entry = Base(limit: int, at: nat) | Granted(used: int, at: nat) | Credited(amount: int)

  /** The log of a check: the budget is set anew when a new minute has begun. */
  function Checked(l: Limiter, log: seq<Entry>, t: nat): seq<Entry> {
    if Refills(l.lastCheck, t) then log + [Base(l.limit, t)] else log
  }

  /** What one decline does under the lock: the new state, the log, the time, and the verdict. */
  datatype Declined = Declined(limiter: Limiter, log: seq<Entry>, now: nat, granted: bool)

  /**
   * Up to `tries` rounds. delays[i] is the time that passes before the i-th check beyond what decline
   * sleeps by itself, delays[tries] what passes after the last sleep.
   */
  function DeclineLoop(l: Limiter, log: seq<Entry>, now: nat, used: int, delays: seq<nat>, tries: nat): (d: Declined)
    requires |delays| > tries
    ensures d.now >= now
    decreases tries
  {
    if tries == 0 then Declined(l, log, now + delays[0], false)
    else
      var t := now + delays[0];
      var checked, checkedLog := Refreshed(l, t), Checked(l, log, t);
      if used <= checked.current then
        Declined(checked.(current := checked.current - used), checkedLog + [Granted(used, t)], t, true)
      else DeclineLoop(checked, checkedLog, t + SleepTime(checked), used, delays[1..], tries - 1)
  }

  /** The state after rounds that all failed; `granted` is set once one of them would not have. */
  function AfterFailures(l: Limiter, log: seq<Entry>, now: nat, used: int, delays: seq<nat>): Declined {
    if delays == [] then Declined(l, log, now, false)
    else
      var n := |delays| - 1;
      var before := AfterFailures(l, log, now, used, delays[..n]);
      var t := before.now + delays[n];
      var checked := Refreshed(before.limiter, t);
      if before.granted || used <= checked.current then before.(granted := true)
      else Declined(checked, Checked(before.limiter, before.log, t), t + SleepTime(checked), false)
  }

  /** After failed rounds the loop goes on as if it started there. */
  lemma {:induction false} LoopAfterFailures(l: Limiter, log: seq<Entry>, now: nat, used: int,
                                            delays: seq<nat>, rest: seq<nat>, tries: nat)
    requires |rest| > tries && !AfterFailures(l, log, now, used, delays).granted
    ensures var a := AfterFailures(l, log, now, used, delays);
      DeclineLoop(l, log, now, used, delays + rest, |delays| + tries) ==
      DeclineLoop(a.limiter, a.log, a.now, used, rest, tries)
    decreases |delays|
  {
    hide Refreshed, Checked, SleepTime;
    if delays == [] {
      assert delays + rest == rest;
    } else {
      var front, d := delays[..|delays| - 1], delays[|delays| - 1];
      LoopAfterFailures(l, log, now, used, front, [d] + rest, tries + 1);
      assert front + ([d] + rest) == delays + rest;
      FailedRound(AfterFailures(l, log, now, used, front), used, d, rest, tries);
    }
  }

  lemma {:induction false} NoFailuresYet(l: Limiter, log: seq<Entry>, now: nat, used: int)
    ensures AfterFailures(l, log, now, used, []) == Declined(l, log, now, false)
  {}

  lemma {:induction false} OneMoreFailure(l: Limiter, log: seq<Entry>, now: nat, used: int, delays: seq<nat>, d: nat)
    ensures var a := AfterFailures(l, log, now, used, delays);
      var checked := Refreshed(a.limiter, a.now + d);
      AfterFailures(l, log, now, used, delays + [d]) ==
      if a.granted || used <= checked.current then a.(granted := true)
      else Declined(checked, Checked(a.limiter, a.log, a.now + d), a.now + d + SleepTime(checked), false)
  {
    hide Refreshed, Checked, SleepTime;
    assert (delays + [d])[..|delays|] == delays;
  }

  /** A round that succeeds after failed ones ends the loop. */
  lemma {:induction false} GrantAfterFailures(l: Limiter, log: seq<Entry>, now: nat, used: int, delays: seq<nat>,
                                             d: nat, rest: seq<nat>, tries: nat)
    requires |rest| > tries
    requires var a := AfterFailures(l, log, now, used, delays);
      !a.granted && used <= Refreshed(a.limiter, a.now + d).current
    ensures var a := AfterFailures(l, log, now, used, delays);
      var t := a.now + d;
      var checked := Refreshed(a.limiter, t);
      DeclineLoop(l, log, now, used, delays + ([d] + rest), |delays| + tries + 1) ==
      Declined(checked.(current := checked.current - used), Checked(a.limiter, a.log, t) + [Granted(used, t)], t, true)
  {
    hide Refreshed, Checked, SleepTime;
    LoopAfterFailures(l, log, now, used, delays, [d] + rest, tries + 1);
  }

  lemma {:induction false} AllFailed(l: Limiter, log: seq<Entry>, now: nat, used: int, delays: seq<nat>, d: nat)
    requires !AfterFailures(l, log, now, used, delays).granted
    ensures var a := AfterFailures(l, log, now, used, delays);
      DeclineLoop(l, log, now, used, delays + [d], |delays|) == Declined(a.limiter, a.log, a.now + d, false)
  {
    hide Refreshed, Checked, SleepTime;
    LoopAfterFailures(l, log, now, used, delays, [d], 0);
  }

  lemma {:induction false} FailedRound(a: Declined, used: int, d: nat, rest: seq<nat>, tries: nat)
    requires |rest| > tries && used > Refreshed(a.limiter, a.now + d).current
    ensures var t := a.now + d;
      var checked := Refreshed(a.limiter, t);
      DeclineLoop(a.limiter, a.log, a.now, used, [d] + rest, tries + 1) ==
      DeclineLoop(checked, Checked(a.limiter, a.log, t), t + SleepTime(checked), used, rest, tries)
  {
    assert ([d] + rest)[1..] == rest;
  }

  function Cleared(l: Limiter): Limiter { l.(current := 0) }

  function Compensated(l: Limiter, compensation: int): Limiter { l.(current := l.current + compensation) }

  /** The one-time reset to the limit the server reports. */
  function ResetOnce(l: Limiter, tpm: int): Limiter {
    if l.hasBeenReset then l
    else if l.original == tpm then l.(hasBeenReset := true)
    else
      var target := Max(if !l.Closed() then Min(l.original, tpm) else tpm, 0);
      var limit := Buffered(target, l.ratio);
      l.(limit := limit, current := Max(limit - (l.limit - l.current), 0), hasBeenReset := true)
  }

  // ---- the clock ----

  /** The code's test for a new minute is exact: the minute of the hour alone would miss whole hours. */
  lemma {:induction false} RefillIffMinuteChanged(lastCheck: nat, now: nat)
    requires lastCheck <= now
    ensures Refills(lastCheck, now) <==> Minute(lastCheck) != Minute(now)
  {
    var a, b := Minute(lastCheck), Minute(now);
    assert a <= b;
    if a == b {
      assert a * 60_000_000 <= lastCheck && now < (a + 1) * 60_000_000;
    } else if MinuteOfHour(lastCheck) == MinuteOfHour(now) {
      assert b >= a + 60 by { if b < a + 60 { MinutesApart(a, b); } }
      assert lastCheck < (a + 1) * 60_000_000 && b * 60_000_000 <= now;
    }
  }

  lemma {:induction false} MinutesApart(a: nat, b: nat)
    requires a < b < a + 60
    ensures a % 60 != b % 60
  {
    assert a == a / 60 * 60 + a % 60 && b == b / 60 * 60 + b % 60;
  }

  /** After the sleep the clock has reached the next minute. */
  lemma {:induction false} SleepReachesNextMinute(l: Limiter, t: nat)
    requires t >= l.lastCheck + SleepTime(l)
    ensures Minute(t) > Minute(l.lastCheck)
  {
    var m, s := Minute(l.lastCheck), SecondOfMinute(l.lastCheck);
    var seconds := l.lastCheck / 1_000_000;
    assert seconds == seconds / 60 * 60 + s;
    assert l.lastCheck >= seconds * 1_000_000;
    assert seconds / 60 == m by { assert m * 60_000_000 <= l.lastCheck < (m + 1) * 60_000_000; }
    assert t >= (m + 1) * 60_000_000;
  }

  // ---- progress ----

  /** One round: granted on the spot, or a sleep after which the next check finds the full limit. */
  lemma {:induction false} Round(l: Limiter, log: seq<Entry>, now: nat, used: int, delays: seq<nat>, tries: nat)
    requires tries > 0 && |delays| > tries && l.lastCheck <= now
    ensures var first := Refreshed(l, now + delays[0]);
      && first.limit == l.limit
      && (used <= first.current ==>
            DeclineLoop(l, log, now, used, delays, tries) == DeclineLoop(l, log, now, used, delays, 1)
            && DeclineLoop(l, log, now, used, delays, tries).granted)
      && (used > first.current ==>
            DeclineLoop(l, log, now, used, delays, tries) ==
            DeclineLoop(first, Checked(l, log, now + delays[0]), now + delays[0] + SleepTime(first), used, delays[1..], tries - 1))
  {}

  /** After a sleep the check refills, so a round is granted exactly when the amount is within the limit. */
  lemma {:induction false} RoundAfterSleep(l: Limiter, log: seq<Entry>, t: nat, used: int, delays: seq<nat>, tries: nat)
    requires l.lastCheck == t && |delays| > tries
    ensures DeclineLoop(l, log, t + SleepTime(l), used, delays, tries).granted <==> tries > 0 && used <= l.limit
    ensures used <= l.limit && tries > 0 ==>
      DeclineLoop(l, log, t + SleepTime(l), used, delays, tries) == DeclineLoop(l, log, t + SleepTime(l), used, delays, 1)
    decreases tries
  {
    if tries > 0 {
      var t1 := t + SleepTime(l) + delays[0];
      var second := Refreshed(l, t1);
      Refilled(l, t1);
      Round(l, log, t + SleepTime(l), used, delays, tries);
      if used > l.limit {
        hide DeclineLoop, Refreshed, SleepTime;
        RoundAfterSleep(second, Checked(l, log, t1), t1, used, delays[1..], tries - 1);
      }
    }
  }

  lemma {:induction false} Refilled(l: Limiter, t: nat)
    requires t >= l.lastCheck + SleepTime(l)
    ensures Refreshed(l, t).current == l.limit && Refreshed(l, t).lastCheck == t && Refreshed(l, t).limit == l.limit
  {
    SleepReachesNextMinute(l, t);
    RefillIffMinuteChanged(l.lastCheck, t);
  }

  /**
   * A decline is granted exactly when the amount is within what the first check finds or within the
   * limit; otherwise all rounds fail and the caller gets an error. With one sleep it is decided.
   */
  lemma {:induction false} DeclineGrantedIff(l: Limiter, log: seq<Entry>, now: nat, used: int, delays: seq<nat>)
    requires l.lastCheck <= now && |delays| == 4
    ensures DeclineLoop(l, log, now, used, delays, 3).granted <==>
      used <= Refreshed(l, now + delays[0]).current || used <= l.limit
    ensures used <= l.limit ==> DeclineLoop(l, log, now, used, delays, 3) == DeclineLoop(l, log, now, used, delays, 2)
  {
    var t := now + delays[0];
    var first := Refreshed(l, t);
    assert first.lastCheck == t;
    hide DeclineLoop, Refreshed, SleepTime, Checked;
    Round(l, log, now, used, delays, 3);
    Round(l, log, now, used, delays, 2);
    if used > first.current {
      RoundAfterSleep(first, Checked(l, log, t), t, used, delays[1..], 2);
    }
  }
}
