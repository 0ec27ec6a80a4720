/** How much a limiter lets through: the buffered limit, and the amount every operation leaves. */
module LimiterAmounts {
  import opened Numbers
  import opened TokenLimiter

  // ---- the limit ----

  /** The limit is what is left of n after the buffer, cut off to a whole number toward zero. */
  ghost predicate BufferedLimit(limit: int, n: int, ratio: real) {
    var left := n as real - n as real * ratio;
    if left >= 0.0 then left - 1.0 < limit as real <= left else left <= limit as real < left + 1.0
  }

  lemma {:induction false} TowardZero(x: real)
    ensures if x >= 0.0 then x - 1.0 < Truncate(x) as real <= x else x <= Truncate(x) as real < x + 1.0
  {}

  lemma {:induction false} LimitIsBuffered(n: int, ratio: real)
    ensures BufferedLimit(Buffered(n, ratio), n, ratio)
  {
    TowardZero(n as real * (1.0 - ratio));
    assert n as real * (1.0 - ratio) == n as real - n as real * ratio;
  }

  /** A limit of n without a buffer, and one less than n and not negative with any buffer up to the whole. */
  lemma {:induction false} BufferLowersLimit(n: int, ratio: real)
    requires n > 0 && 0.0 <= ratio <= 1.0
    ensures 0 <= Buffered(n, ratio) <= n
    ensures n as real * (1.0 - ratio) - 1.0 < Buffered(n, ratio) as real <= n as real * (1.0 - ratio)
    ensures ratio == 0.0 ==> Buffered(n, ratio) == n
  {
    LimitIsBuffered(n, ratio);
    Products(n as real, ratio);
  }

  lemma {:induction false} Products(x: real, ratio: real)
    requires x > 0.0 && 0.0 <= ratio <= 1.0
    ensures 0.0 <= x * ratio <= x && x * (1.0 - ratio) == x - x * ratio
  {}

  /** A new limiter has all of its limit at hand; the limit is the buffered one of the caller, or else of the configuration. */
  lemma {:induction false} NewLimit(limit: int, configured: int, ratio: real, disabled: bool, now: nat)
    ensures var l, n := New(limit, configured, ratio, disabled, now), if limit > 0 then limit else configured;
      && BufferedLimit(l.limit, n, ratio) && l.current == l.limit && l.original == n && l.ratio == ratio
      && l.hasBeenReset == disabled && l.lastCheck == now
      && (n > 0 && 0.0 <= ratio <= 1.0 ==> n as real * (1.0 - ratio) - 1.0 < l.limit as real <= n as real * (1.0 - ratio))
  {
    var n := if limit > 0 then limit else configured;
    LimitIsBuffered(n, ratio);
    if n > 0 && 0.0 <= ratio <= 1.0 { BufferLowersLimit(n, ratio); }
  }

  /** For example a tenth of 1000 is kept back. */
  lemma {:induction false} NineHundred(now: nat)
    ensures New(1000, 0, 0.1, false, now).limit == 900 && New(0, 1000, 0.1, false, now).limit == 900
  {}

  // ---- the reset ----

  /** What a reset is to take for the limit: the smaller one, or for a closed limiter the one reported; never a negative one. */
  ghost predicate ResetTarget(n: int, l: Limiter, tpm: int) {
    && n >= 0
    && (l.limit > 0 ==> n == 0 || n <= l.original)
    && (n <= tpm || n == 0)
    && (n == tpm || (l.limit > 0 && n == l.original) || (n == 0 && (tpm < 0 || (l.limit > 0 && l.original < 0))))
  }

  /** The one reset sets the buffered limit; what was used of the old one stays used, as far as the new one goes. */
  lemma {:induction false} ResetSets(l: Limiter, tpm: int) returns (n: int)
    requires !l.hasBeenReset && tpm != l.original
    ensures var l', used := ResetOnce(l, tpm), l.limit - l.current;
      && ResetTarget(n, l, tpm) && BufferedLimit(l'.limit, n, l.ratio)
      && (n > 0 && 0.0 <= l.ratio <= 1.0 ==>
            n as real * (1.0 - l.ratio) - 1.0 < l'.limit as real <= n as real * (1.0 - l.ratio))
      && (l'.limit >= used ==> l'.current == l'.limit - used) && (l'.limit < used ==> l'.current == 0)
      && l' == l.(limit := l'.limit, current := l'.current, hasBeenReset := true)
  {
    n := Max(if l.limit > 0 then Min(l.original, tpm) else tpm, 0);
    LimitIsBuffered(n, l.ratio);
    if n > 0 && 0.0 <= l.ratio <= 1.0 { BufferLowersLimit(n, l.ratio); }
    hide Buffered, BufferedLimit;
    ResetLimit(l, tpm);
  }

  lemma {:induction false} ResetLimit(l: Limiter, tpm: int)
    requires !l.hasBeenReset && tpm != l.original
    ensures var n, l', used := Max(if l.limit > 0 then Min(l.original, tpm) else tpm, 0), ResetOnce(l, tpm), l.limit - l.current;
      && ResetTarget(n, l, tpm) && l'.limit == Buffered(n, l.ratio)
      && (l'.limit >= used ==> l'.current == l'.limit - used) && (l'.limit < used ==> l'.current == 0)
      && l' == l.(limit := l'.limit, current := l'.current, hasBeenReset := true)
  {
    hide Buffered;
  }

  /** The limit that is there already is only marked as known, and after the first reset nothing changes. */
  lemma {:induction false} ResetChangesNothing(l: Limiter, tpm: int)
    requires l.hasBeenReset || tpm == l.original
    ensures ResetOnce(l, tpm) == l.(hasBeenReset := true)
  {}

  // ---- what is at hand ----

  /** What a limiter has at hand when it is next looked at: all of its limit once the minute has changed. */
  ghost function AtHand(l: Limiter, t: nat): int {
    if Minute(l.lastCheck) == Minute(t) then l.current else l.limit
  }

  lemma {:induction false} RefreshedAtHand(l: Limiter, t: nat)
    requires l.lastCheck <= t
    ensures Refreshed(l, t) == l.(current := AtHand(l, t), lastCheck := t)
  {
    RefillIffMinuteChanged(l.lastCheck, t);
  }

  lemma {:induction false} LaterMinute(a: nat, b: nat)
    requires a <= b
    ensures Minute(a) <= Minute(b)
  {}

  /** What is at hand later does not depend on looks in between. */
  lemma {:induction false} AtHandThrough(l: Limiter, t: nat, later: nat)
    requires l.lastCheck <= t <= later
    ensures AtHand(Refreshed(l, t), later) == AtHand(l, later)
  {
    RefreshedAtHand(l, t);
    LaterMinute(l.lastCheck, t);
    LaterMinute(t, later);
  }

  /** To the log were added budgets that were set anew, and then these entries. */
  ghost predicate Records(log: seq<Entry>, later: seq<Entry>, entries: seq<Entry>) {
    && |log| + |entries| <= |later| && log <= later
    && (forall i :: |log| <= i < |later| - |entries| ==> later[i].Base?)
    && later[|later| - |entries|..] == entries
  }

  lemma {:induction false} CheckRecords(l: Limiter, log: seq<Entry>, t: nat, entries: seq<Entry>)
    ensures Records(log, Checked(l, log, t), []) && Records(log, Checked(l, log, t) + entries, entries)
  {}

  lemma {:induction false} RecordsThrough(log: seq<Entry>, between: seq<Entry>, later: seq<Entry>, entries: seq<Entry>)
    requires Records(log, between, []) && Records(between, later, entries)
    ensures Records(log, later, entries)
  {
    forall i | |log| <= i < |later| - |entries| ensures later[i].Base? {
      assert i < |between| ==> later[i] == between[i];
    }
  }

  /**
   * A decline takes exactly its amount from what is at hand at its last look, or nothing at all; the rest
   * of the limiter is as it was, and the log tells of it.
   */
  lemma {:induction false} DeclineTakes(l: Limiter, log: seq<Entry>, now: nat, used: int, delays: seq<nat>, tries: nat)
    requires l.lastCheck <= now && |delays| > tries && tries > 0
    ensures var d := DeclineLoop(l, log, now, used, delays, tries);
      && l.lastCheck <= d.limiter.lastCheck <= d.now
      && d.limiter == l.(current := d.limiter.current, lastCheck := d.limiter.lastCheck)
      && d.limiter.current == AtHand(l, d.limiter.lastCheck) - (if d.granted then used else 0)
      && (d.granted ==> used <= AtHand(l, d.now) && d.limiter.lastCheck == d.now)
      && (!d.granted ==> used > AtHand(l, d.limiter.lastCheck))
      && Records(log, d.log, if d.granted then [Granted(used, d.now)] else [])
    decreases tries
  {
    hide Refreshed, Checked, SleepTime, AtHand, Records;
    var t := now + delays[0];
    var checked := Refreshed(l, t);
    RefreshedAtHand(l, t);
    CheckRecords(l, log, t, [Granted(used, t)]);
    if used > checked.current && tries > 1 {
      DeclineTakes(checked, Checked(l, log, t), t + SleepTime(checked), used, delays[1..], tries - 1);
      var d := DeclineLoop(checked, Checked(l, log, t), t + SleepTime(checked), used, delays[1..], tries - 1);
      AtHandThrough(l, t, d.limiter.lastCheck);
      AtHandThrough(l, t, d.now);
      RecordsThrough(log, Checked(l, log, t), d.log, if d.granted then [Granted(used, d.now)] else []);
    }
  }

  /** After a clear nothing is at hand up to the end of the minute, and all of the limit after it. */
  lemma {:induction false} ClearedAtHand(l: Limiter, t: nat)
    requires l.lastCheck <= t
    ensures AtHand(Cleared(l), t) == if Minute(l.lastCheck) == Minute(t) then 0 else l.limit
  {}

  /** A compensation adds its amount up to the end of the minute, and nothing after it. */
  lemma {:induction false} CompensatedAtHand(l: Limiter, compensation: int, t: nat)
    requires l.lastCheck <= t
    ensures AtHand(Compensated(l, compensation), t) ==
      AtHand(l, t) + if Minute(l.lastCheck) == Minute(t) then compensation else 0
  {}

  /** Compensating what was granted, in the same minute, undoes the decline. */
  lemma {:induction false} CompensationUndoes(l: Limiter, log: seq<Entry>, now: nat, used: int, delays: seq<nat>, t: nat)
    requires l.lastCheck <= now && |delays| == 4
    requires DeclineLoop(l, log, now, used, delays, 3).granted && DeclineLoop(l, log, now, used, delays, 3).now <= t
    ensures AtHand(Compensated(DeclineLoop(l, log, now, used, delays, 3).limiter, used), t) == AtHand(l, t)
  {
    var d := DeclineLoop(l, log, now, used, delays, 3);
    DeclineTakes(l, log, now, used, delays, 3);
    LaterMinute(l.lastCheck, d.now);
    LaterMinute(d.now, t);
  }

  /** A sleep of exactly that time ends in the next minute, and takes no longer than one. */
  lemma {:induction false} SleepEndsInNextMinute(l: Limiter)
    ensures Minute(l.lastCheck + SleepTime(l)) == Minute(l.lastCheck) + 1 && 0 < SleepTime(l) <= 60_000_000
  {
    SleepReachesNextMinute(l, l.lastCheck + SleepTime(l));
  }
}
