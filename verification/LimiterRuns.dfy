/**
 * Threads that share one limiter. Every operation first tests fields without the lock, decline in two
 * tests, and then does its work under the lock; these parts of different threads interleave freely.
 */
module LimiterRuns {
  import opened Numbers
  import opened TokenLimiter

  datatype Op = Decline(used: int) | Clear | Compensate(amount: int) | ResetOnceTo(tpm: int)

  /** `testing`: the declines that found the limiter open and have yet to look at its limit. */
  datatype System = System(limiter: Limiter, now: nat, testing: map<nat, int>, waiting: map<nat, Op>, log: seq<Entry>)

  ghost predicate Init(s: System) {
    exists limit, configured, ratio, disabled ::
      s == Created(New(limit, configured, ratio, disabled, s.now), s.now)
  }

  function Created(l: Limiter, now: nat): System {
    System(l, now, map[], map[], [Base(l.limit, now)])
  }

  /** The first test: does the thread go on? */
  predicate Passes(l: Limiter, op: Op) {
    if op.ResetOnceTo? then !l.hasBeenReset else !l.Closed()
  }

  function Start(s: System, tid: nat, op: Op): System {
    if !Passes(s.limiter, op) then s
    else if op.Decline? then s.(testing := s.testing[tid := op.used])
    else s.(waiting := s.waiting[tid := op])
  }

  /** The second test of a decline, which raises for more than the limit. */
  function Test(s: System, tid: nat): System
    requires tid in s.testing
  {
    var used, tested := s.testing[tid], s.(testing := s.testing - {tid});
    if used <= s.limiter.limit then tested.(waiting := s.waiting[tid := Decline(used)]) else tested
  }

  /**
   * The locked half of an operation. A compensation gives up when the lock is not free in time;
   * decline keeps the lock while it sleeps.
   */
  function Locked(s: System, op: Op, delays: seq<nat>, timedOut: bool): System
    requires |delays| == 4
  {
    match op
    case Decline(used) =>
      var d := DeclineLoop(s.limiter, s.log, s.now, used, delays, 3);
      s.(limiter := d.limiter, now := d.now, log := d.log)
    case Clear => s.(limiter := Cleared(s.limiter))
    case Compensate(amount) =>
      if timedOut then s
      else s.(limiter := Compensated(s.limiter, amount), log := s.log + if amount > 0 then [Credited(amount)] else [])
    case ResetOnceTo(tpm) =>
      var l := ResetOnce(s.limiter, tpm);
      s.(limiter := l, log := s.log + if s.limiter.Closed() && !l.Closed() then [Base(l.limit, s.now)] else [])
  }

  ghost predicate Next(s: System, s': System) {
    || (s.now <= s'.now && s' == s.(now := s'.now))
    || (exists tid, op :: Idle(s, tid) && s' == Start(s, tid, op))
    || (exists tid :: tid in s.testing && s' == Test(s, tid))
    || (exists tid, delays, timedOut :: tid in s.waiting && LockStep(s, s', tid, delays, timedOut))
  }

  predicate Idle(s: System, tid: nat) { tid !in s.testing && tid !in s.waiting }

  ghost predicate LockStep(s: System, s': System, tid: nat, delays: seq<nat>, timedOut: bool)
    requires tid in s.waiting
  {
    |delays| == 4 && s' == Locked(s.(waiting := s.waiting - {tid}), s.waiting[tid], delays, timedOut)
  }

  ghost predicate Run(run: seq<System>) {
    run != [] && Init(run[0]) && forall i :: 0 <= i < |run| - 1 ==> Next(run[i], run[i + 1])
  }

  // ---- accounting over the log ----

  /** Tokens granted in one calendar minute. */
  function GrantedIn(log: seq<Entry>, minute: nat): int {
    if log == [] then 0
    else
      var n := |log| - 1;
      GrantedIn(log[..n], minute) +
      if log[n].Granted? && Minute(log[n].at) == minute then log[n].used else 0
  }

  /** The budget in force: when and to what limit it was set, what was credited and granted since. */
  datatype Budget = Budget(limit: int, at: nat, credited: int, granted: int) {
    function Allowance(): int { Max(limit, 0) + credited }
  }

  function Account(log: seq<Entry>): Budget {
    if log == [] then Budget(0, 0, 0, 0)
    else
      var n := |log| - 1;
      Applied(Account(log[..n]), log[n])
  }

  function Applied(b: Budget, e: Entry): Budget {
    match e
    case Base(limit, at) => Budget(limit, at, 0, 0)
    case Granted(used, _) => b.(granted := b.granted + used)
    case Credited(amount) => b.(credited := b.credited + amount)
  }

  lemma {:induction false} AccountMore(log: seq<Entry>, e: Entry)
    ensures Account(log + [e]) == Applied(Account(log), e)
  {
    assert (log + [e])[..|log|] == log;
  }

  lemma {:induction false} GrantedMore(log: seq<Entry>, e: Entry, minute: nat)
    ensures GrantedIn(log + [e], minute) ==
      GrantedIn(log, minute) + if e.Granted? && Minute(e.at) == minute then e.used else 0
  {
    assert (log + [e])[..|log|] == log;
  }

  /** No grant in the log lies after this minute. */
  ghost predicate NoneAfter(log: seq<Entry>, minute: nat) {
    log == [] ||
    var n := |log| - 1;
    NoneAfter(log[..n], minute) && (log[n].Granted? ==> Minute(log[n].at) <= minute)
  }

  lemma {:induction false} NoneAfterMore(log: seq<Entry>, e: Entry, minute: nat, later: nat)
    requires NoneAfter(log, minute) && minute <= later && (e.Granted? ==> Minute(e.at) <= later)
    ensures NoneAfter(log + [e], later) && NoneAfter(log, later)
  {
    NoneAfterLater(log, minute, later);
    assert (log + [e])[..|log|] == log;
  }

  lemma {:induction false} NoneAfterLater(log: seq<Entry>, minute: nat, later: nat)
    requires NoneAfter(log, minute) && minute <= later
    ensures NoneAfter(log, later)
    ensures minute < later ==> GrantedIn(log, later) == 0
  {
    if log != [] { NoneAfterLater(log[..|log| - 1], minute, later); }
  }

  // ---- the quota ----

  /** After this grant: all of its minute stays within the budget that was set in the same minute. */
  ghost predicate WithinQuota(log: seq<Entry>, at: nat) {
    && GrantedIn(log, Minute(at)) <= Account(log).Allowance()
    && Minute(Account(log).at) == Minute(at)
  }

  ghost predicate History(log: seq<Entry>) {
    log == [] ||
    var n := |log| - 1;
    History(log[..n]) && (log[n].Granted? ==> WithinQuota(log, log[n].at))
  }

  lemma {:induction false} HistoryMore(log: seq<Entry>, e: Entry)
    requires History(log) && (e.Granted? ==> WithinQuota(log + [e], e.at))
    ensures History(log + [e])
  {
    assert (log + [e])[..|log|] == log;
  }

  /** What holds between the limiter, its log and the clock, also in the middle of a decline. */
  ghost predicate InBudget(l: Limiter, log: seq<Entry>, now: nat) {
    var b := Account(log);
    && Max(l.current, 0) + b.granted <= b.Allowance()
    && b.granted == GrantedIn(log, Minute(l.lastCheck))
    && NoneAfter(log, Minute(l.lastCheck))
    && Minute(l.lastCheck) <= Minute(b.at)
    && b.at <= now && l.lastCheck <= now
    && History(log)
  }

  lemma {:induction false} MinuteMonotone(a: nat, b: nat)
    requires a <= b
    ensures Minute(a) <= Minute(b)
  {}

  lemma {:induction false} RefillKeepsBudget(l: Limiter, log: seq<Entry>, now: nat, t: nat)
    requires InBudget(l, log, now) && now <= t && Minute(l.lastCheck) < Minute(t)
    ensures InBudget(l.(current := l.limit, lastCheck := t), log + [Base(l.limit, t)], t)
  {
    var e := Base(l.limit, t);
    assert Account(log + [e]) == Budget(l.limit, t, 0, 0) by { AccountMore(log, e); }
    assert GrantedIn(log + [e], Minute(t)) == 0 by {
      NoneAfterLater(log, Minute(l.lastCheck), Minute(t));
      GrantedMore(log, e, Minute(t));
    }
    assert NoneAfter(log + [e], Minute(t)) by { NoneAfterMore(log, e, Minute(l.lastCheck), Minute(t)); }
    assert History(log + [e]) by { HistoryMore(log, e); }
  }

  lemma {:induction false} SameMinuteKeepsBudget(l: Limiter, log: seq<Entry>, now: nat, t: nat)
    requires InBudget(l, log, now) && now <= t && Minute(l.lastCheck) == Minute(t)
    ensures InBudget(l.(lastCheck := t), log, t)
  {}

  lemma {:induction false} CheckKeepsBudget(l: Limiter, log: seq<Entry>, now: nat, t: nat)
    requires InBudget(l, log, now) && now <= t
    ensures InBudget(Refreshed(l, t), Checked(l, log, t), t)
  {
    RefillIffMinuteChanged(l.lastCheck, t);
    MinuteMonotone(l.lastCheck, t);
    if Refills(l.lastCheck, t) {
      RefillKeepsBudget(l, log, now, t);
    } else {
      SameMinuteKeepsBudget(l, log, now, t);
    }
  }

  lemma {:induction false} GrantKeepsBudget(l: Limiter, log: seq<Entry>, used: int)
    requires InBudget(l, log, l.lastCheck) && used <= l.current
    ensures InBudget(l.(current := l.current - used), log + [Granted(used, l.lastCheck)], l.lastCheck)
  {
    var e := Granted(used, l.lastCheck);
    AccountMore(log, e);
    GrantedMore(log, e, Minute(l.lastCheck));
    MinuteMonotone(Account(log).at, l.lastCheck);
    NoneAfterMore(log, e, Minute(l.lastCheck), Minute(l.lastCheck));
    HistoryMore(log, e);
  }

  lemma {:induction false} DeclineKeepsBudget(l: Limiter, log: seq<Entry>, now: nat, used: int, delays: seq<nat>, tries: nat)
    requires InBudget(l, log, now) && |delays| > tries
    ensures var d := DeclineLoop(l, log, now, used, delays, tries);
      && InBudget(d.limiter, d.log, d.now)
      && d.limiter == l.(current := d.limiter.current, lastCheck := d.limiter.lastCheck)
    decreases tries
  {
    hide InBudget;
    if tries == 0 {
      LaterKeepsBudget(l, log, now, now + delays[0]);
    } else {
      var t := now + delays[0];
      var checked, checkedLog := Refreshed(l, t), Checked(l, log, t);
      CheckKeepsBudget(l, log, now, t);
      if used <= checked.current {
        GrantKeepsBudget(checked, checkedLog, used);
      } else {
        var later := t + SleepTime(checked);
        LaterKeepsBudget(checked, checkedLog, t, later);
        DeclineKeepsBudget(checked, checkedLog, later, used, delays[1..], tries - 1);
      }
    }
  }

  lemma {:induction false} LaterKeepsBudget(l: Limiter, log: seq<Entry>, now: nat, later: nat)
    requires InBudget(l, log, now) && now <= later
    ensures InBudget(l, log, later)
  {}

  // ---- clear, compensate and reset ----

  lemma {:induction false} ClearKeepsBudget(l: Limiter, log: seq<Entry>, now: nat)
    requires InBudget(l, log, now)
    ensures InBudget(Cleared(l), log, now)
  {}

  /** Lowering the current amount is always within budget. */
  lemma {:induction false} LessKeepsBudget(l: Limiter, log: seq<Entry>, now: nat, l': Limiter)
    requires InBudget(l, log, now) && l'.lastCheck == l.lastCheck && Max(l'.current, 0) <= Max(l.current, 0)
    ensures InBudget(l', log, now)
  {}

  lemma {:induction false} CreditKeepsBudget(l: Limiter, log: seq<Entry>, now: nat, amount: int)
    requires InBudget(l, log, now) && amount > 0
    ensures InBudget(Compensated(l, amount), log + [Credited(amount)], now)
  {
    var e := Credited(amount);
    assert Account(log + [e]) == Applied(Account(log), e) by { AccountMore(log, e); }
    assert GrantedIn(log + [e], Minute(l.lastCheck)) == GrantedIn(log, Minute(l.lastCheck)) by {
      GrantedMore(log, e, Minute(l.lastCheck));
    }
    NoneAfterMore(log, e, Minute(l.lastCheck), Minute(l.lastCheck));
    HistoryMore(log, e);
  }

  /** What the constructor sets up and only the reset changes. */
  ghost predicate Configured(l: Limiter) {
    !l.hasBeenReset ==> l.limit == Buffered(l.original, l.ratio)
  }

  lemma {:induction false} TruncateMonotone(x: real, y: real)
    requires x <= y
    ensures Truncate(x) <= Truncate(y)
  {}

  lemma {:induction false} ScaleMonotone(a: int, b: int, k: real)
    requires a <= b && k >= 0.0
    ensures a as real * k <= b as real * k
  {}

  /** The reset never raises the limit of an open limiter. */
  lemma {:induction false} ResetNeverRaises(l: Limiter, tpm: int)
    requires Configured(l) && !l.Closed()
    ensures ResetOnce(l, tpm).limit <= l.limit
  {
    if !l.hasBeenReset && l.original != tpm {
      var target := Max(Min(l.original, tpm), 0);
      var k := 1.0 - l.ratio;
      if l.original <= 0 {
        assert target == 0 && target as real * k == 0.0;
      } else {
        assert k > 0.0 by { if k <= 0.0 { ScaleNonPositive(l.original, k); } }
        ScaleMonotone(target, l.original, k);
        TruncateMonotone(target as real * k, l.original as real * k);
      }
    }
  }

  lemma {:induction false} ScaleNonPositive(a: int, k: real)
    requires a > 0 && k <= 0.0
    ensures Truncate(a as real * k) <= 0
  {
    assert a as real * k <= 0.0;
  }

  /**
   * The reset changes the budget at most this way: tokens already used stay used, the remaining
   * amount is never negative, and an open limiter is left with no more than it had.
   */
  lemma {:induction false} ResetKeepsUsage(l: Limiter, tpm: int)
    requires Configured(l) && !l.hasBeenReset && l.original != tpm
    ensures var l' := ResetOnce(l, tpm);
      && l'.hasBeenReset && l'.current >= 0
      && (l'.limit - l'.current == l.limit - l.current || (l'.current == 0 && l'.limit < l.limit - l.current))
      && (!l.Closed() ==> l'.current <= Max(l.current, 0))
  {
    if !l.Closed() { ResetNeverRaises(l, tpm); }
  }

  // ---- the system ----

  ghost predicate Untouched(s: System) {
    && s.log == [Base(s.limiter.limit, s.limiter.lastCheck)] && s.limiter.current == s.limiter.limit
    && s.limiter.lastCheck <= s.now && s.testing == map[]
    && forall tid :: tid in s.waiting ==> s.waiting[tid].ResetOnceTo?
  }

  /** The limiter is in budget; one that was never open has not been touched at all. */
  ghost predicate Inv(s: System) {
    && Configured(s.limiter)
    && InBudget(s.limiter, s.log, s.now)
    && (s.limiter.Closed() && !s.limiter.hasBeenReset ==> Untouched(s))
  }

  lemma {:induction false} InitInv(s: System)
    requires Init(s)
    ensures Inv(s)
  {
    var e := Base(s.limiter.limit, s.now);
    assert s.log == [] + [e];
    AccountMore([], e);
    GrantedMore([], e, Minute(s.limiter.lastCheck));
    NoneAfterMore([], e, 0, Minute(s.limiter.lastCheck));
    HistoryMore([], e);
  }

  lemma {:induction false} OpeningKeepsBudget(s: System, tpm: int)
    requires Inv(s) && Untouched(s) && s.limiter.Closed() && !ResetOnce(s.limiter, tpm).Closed()
    ensures var l := ResetOnce(s.limiter, tpm); InBudget(l, s.log + [Base(l.limit, s.now)], s.now)
  {
    var l := ResetOnce(s.limiter, tpm);
    var e, m := Base(l.limit, s.now), Minute(l.lastCheck);
    AccountMore(s.log, e);
    assert GrantedIn(s.log + [e], m) == 0 by {
      assert s.log[..0] == [];
      GrantedMore(s.log, e, m);
    }
    NoneAfterMore(s.log, e, m, m);
    HistoryMore(s.log, e);
    MinuteMonotone(l.lastCheck, s.now);
  }

  lemma {:induction false} ResetKeepsInv(s: System, tpm: int, delays: seq<nat>, timedOut: bool)
    requires Inv(s) && |delays| == 4
    ensures Inv(Locked(s, ResetOnceTo(tpm), delays, timedOut))
  {
    var l, l' := s.limiter, ResetOnce(s.limiter, tpm);
    if !l.hasBeenReset && l.original != tpm {
      ResetKeepsUsage(l, tpm);
      if l.Closed() && !l'.Closed() {
        OpeningKeepsBudget(s, tpm);
      } else {
        assert Max(l'.current, 0) <= Max(l.current, 0);
        LessKeepsBudget(l, s.log, s.now, l');
        assert s.log + [] == s.log;
      }
    } else {
      LessKeepsBudget(l, s.log, s.now, l');
      assert s.log + [] == s.log;
    }
  }

  lemma {:induction false} LockKeepsInv(s: System, op: Op, delays: seq<nat>, timedOut: bool)
    requires Inv(s) && |delays| == 4
    requires s.limiter.Closed() && !s.limiter.hasBeenReset ==> op.ResetOnceTo?
    ensures Inv(Locked(s, op, delays, timedOut))
  {
    hide InBudget;
    match op
    case Decline(used) => DeclineKeepsBudget(s.limiter, s.log, s.now, used, delays, 3);
    case Clear => ClearKeepsBudget(s.limiter, s.log, s.now);
    case Compensate(amount) =>
      if amount > 0 {
        CreditKeepsBudget(s.limiter, s.log, s.now, amount);
      } else {
        LessKeepsBudget(s.limiter, s.log, s.now, Compensated(s.limiter, amount));
        assert s.log + [] == s.log;
      }
    case ResetOnceTo(tpm) => ResetKeepsInv(s, tpm, delays, timedOut);
  }

  lemma {:induction false} NextKeepsInv(s: System, s': System)
    requires Inv(s) && Next(s, s')
    ensures Inv(s')
  {
    hide InBudget;
    if s.now <= s'.now && s' == s.(now := s'.now) {
      LaterKeepsBudget(s.limiter, s.log, s.now, s'.now);
    } else if tid, op :| Idle(s, tid) && s' == Start(s, tid, op) {
    } else if tid :| tid in s.testing && s' == Test(s, tid) {
    } else {
      var tid, delays, timedOut :| tid in s.waiting && LockStep(s, s', tid, delays, timedOut);
      LockKeepsInv(s.(waiting := s.waiting - {tid}), s.waiting[tid], delays, timedOut);
    }
  }

  lemma {:induction false} RunKeepsInv(run: seq<System>)
    requires Run(run)
    ensures Inv(run[|run| - 1])
  {
    hide Inv, Next;
    var n := |run| - 1;
    if n == 0 {
      InitInv(run[0]);
    } else {
      assert Next(run[n - 1], run[n]);
      RunKeepsInv(run[..n]);
      NextKeepsInv(run[n - 1], run[n]);
    }
  }

  // ---- the theorems ----

  /**
   * Over every run of every number of threads, what was granted in one calendar minute is within the
   * limit at the refill of that minute plus the compensation credited since: at the last grant of the
   * minute, that is. The refill lies in the same minute.
   */
  lemma {:induction false} MinuteQuota(run: seq<System>, minute: nat) returns (last: nat)
    requires Run(run)
    ensures var log := run[|run| - 1].log;
      GrantedIn(log, minute) == 0 ||
      (last < |log| && log[last].Granted? && Minute(log[last].at) == minute
       && GrantedIn(log, minute) <= Account(log[..last + 1]).Allowance()
       && Minute(Account(log[..last + 1]).at) == minute)
  {
    RunKeepsInv(run);
    last := LastGrant(run[|run| - 1].log, minute);
  }

  lemma {:induction false} LastGrant(log: seq<Entry>, minute: nat) returns (last: nat)
    requires History(log)
    ensures GrantedIn(log, minute) == 0 ||
      (last < |log| && log[last].Granted? && Minute(log[last].at) == minute
       && GrantedIn(log, minute) <= Account(log[..last + 1]).Allowance()
       && Minute(Account(log[..last + 1]).at) == minute)
  {
    last := 0;
    if log != [] {
      var n := |log| - 1;
      if log[n].Granted? && Minute(log[n].at) == minute {
        last := n;
        assert log[..n + 1] == log;
      } else {
        last := LastGrant(log[..n], minute);
        assert last < n ==> log[..n][..last + 1] == log[..last + 1];
      }
    }
  }

  // ---- the ledger ----

  /** What is at hand is the limit in force and what was credited since, less what was granted. */
  ghost predicate Exact(l: Limiter, log: seq<Entry>) {
    l.current == Account(log).limit + Account(log).credited - Account(log).granted
  }

  lemma {:induction false} CheckKeepsExact(l: Limiter, log: seq<Entry>, t: nat)
    requires Exact(l, log)
    ensures Exact(Refreshed(l, t), Checked(l, log, t))
  {
    AccountMore(log, Base(l.limit, t));
  }

  lemma {:induction false} GrantKeepsExact(l: Limiter, log: seq<Entry>, used: int, t: nat)
    requires Exact(l, log)
    ensures Exact(l.(current := l.current - used), log + [Granted(used, t)])
  {
    AccountMore(log, Granted(used, t));
  }

  lemma {:induction false} DeclineKeepsExact(l: Limiter, log: seq<Entry>, now: nat, used: int, delays: seq<nat>, tries: nat)
    requires Exact(l, log) && |delays| > tries
    ensures var d := DeclineLoop(l, log, now, used, delays, tries); Exact(d.limiter, d.log)
    decreases tries
  {
    hide Exact;
    if tries > 0 {
      var t := now + delays[0];
      var checked, checkedLog := Refreshed(l, t), Checked(l, log, t);
      CheckKeepsExact(l, log, t);
      hide Refreshed, Checked, SleepTime;
      if used <= checked.current {
        GrantKeepsExact(checked, checkedLog, used, t);
      } else {
        DeclineKeepsExact(checked, checkedLog, t + SleepTime(checked), used, delays[1..], tries - 1);
      }
    }
  }

  /** Neither a clear nor a reset, and no compensation that takes tokens away. */
  predicate Plain(op: Op) { op.Decline? || (op.Compensate? && op.amount > 0) }

  lemma {:induction false} LockKeepsExact(s: System, op: Op, delays: seq<nat>, timedOut: bool)
    requires Exact(s.limiter, s.log) && Plain(op) && |delays| == 4
    ensures var s' := Locked(s, op, delays, timedOut); Exact(s'.limiter, s'.log)
  {
    match op
    case Decline(used) => DeclineKeepsExact(s.limiter, s.log, s.now, used, delays, 3);
    case Compensate(amount) => AccountMore(s.log, Credited(amount));
  }

  /** Threads wait for nothing but plain operations. */
  ghost predicate PlainRun(run: seq<System>) {
    forall i, tid :: 0 <= i < |run| && tid in run[i].waiting ==> Plain(run[i].waiting[tid])
  }

  /** As long as nothing is cleared or reset the log accounts for every token, in every run. */
  lemma {:induction false} LedgerIsExact(run: seq<System>)
    requires Run(run) && PlainRun(run)
    ensures Exact(run[|run| - 1].limiter, run[|run| - 1].log)
  {
    hide Next, Init, Exact, Account;
    var n := |run| - 1;
    if n == 0 {
      InitExact(run[0]);
    } else {
      var front := run[..n];
      assert forall i :: 0 <= i < n ==> front[i] == run[i];
      LedgerIsExact(front);
      assert Next(run[n - 1], run[n]);
      NextKeepsExact(run[n - 1], run[n]);
    }
  }

  lemma {:induction false} InitExact(s: System)
    requires Init(s)
    ensures Exact(s.limiter, s.log)
  {
    AccountMore([], Base(s.limiter.limit, s.now));
    assert s.log == [] + [Base(s.limiter.limit, s.now)];
  }

  lemma {:induction false} NextKeepsExact(s: System, s': System)
    requires Exact(s.limiter, s.log) && Next(s, s') && forall tid :: tid in s.waiting ==> Plain(s.waiting[tid])
    ensures Exact(s'.limiter, s'.log)
  {
    hide Exact, Locked;
    if s.now <= s'.now && s' == s.(now := s'.now) {
    } else if tid, op :| Idle(s, tid) && s' == Start(s, tid, op) {
    } else if tid :| tid in s.testing && s' == Test(s, tid) {
    } else {
      var tid, delays, timedOut :| tid in s.waiting && LockStep(s, s', tid, delays, timedOut);
      LockKeepsExact(s.(waiting := s.waiting - {tid}), s.waiting[tid], delays, timedOut);
    }
  }

  /** How many steps of a run changed the limit. */
  function LimitChanges(run: seq<System>): nat {
    if |run| < 2 then 0
    else
      var n := |run| - 1;
      LimitChanges(run[..n]) + if run[n - 1].limiter.limit != run[n].limiter.limit then 1 else 0
  }

  /** The limit moves only in the step that sets the flag, and downwards unless it was closed. */
  lemma {:induction false} LimitStep(s: System, s': System)
    requires Inv(s) && Next(s, s')
    ensures s.limiter.hasBeenReset ==> s'.limiter.hasBeenReset
    ensures s'.limiter.limit != s.limiter.limit ==>
      && !s.limiter.hasBeenReset && s'.limiter.hasBeenReset
      && (s.limiter.Closed() || s'.limiter.limit < s.limiter.limit)
  {
    hide InBudget;
    if s.now <= s'.now && s' == s.(now := s'.now) {
    } else if tid, op :| Idle(s, tid) && s' == Start(s, tid, op) {
    } else if tid :| tid in s.testing && s' == Test(s, tid) {
    } else {
      var tid, delays, timedOut :| tid in s.waiting && LockStep(s, s', tid, delays, timedOut);
      match s.waiting[tid]
      case Decline(used) => DeclineKeepsBudget(s.limiter, s.log, s.now, used, delays, 3);
      case ResetOnceTo(tpm) => if !s.limiter.Closed() { ResetNeverRaises(s.limiter, tpm); }
      case _ =>
    }
  }

  /** Whatever threads do, the limit changes at most once, and an open limiter's only downwards. */
  lemma {:induction false} ResetAtMostOnce(run: seq<System>)
    requires Run(run)
    ensures LimitChanges(run) <= 1
    ensures LimitChanges(run) == 1 ==> run[|run| - 1].limiter.hasBeenReset
    ensures !run[0].limiter.Closed() ==> run[|run| - 1].limiter.limit <= run[0].limiter.limit
  {
    hide Inv, Next;
    var n := |run| - 1;
    if n > 0 {
      assert Next(run[n - 1], run[n]);
      var before := run[..n];
      assert Run(before);
      ResetAtMostOnce(before);
      RunKeepsInv(before);
      LimitStep(run[n - 1], run[n]);
      assert before[|before| - 1] == run[n - 1];
      if !run[0].limiter.Closed() && run[n].limiter.limit != run[n - 1].limiter.limit {
        UnchangedSoFar(before);
      }
    }
  }

  lemma {:induction false} UnchangedSoFar(run: seq<System>)
    requires run != [] && LimitChanges(run) == 0
    ensures run[|run| - 1].limiter.limit == run[0].limiter.limit
  {
    if |run| > 1 { UnchangedSoFar(run[..|run| - 1]); }
  }

  // ---- a decline that passed the tests before the lock ----

  lemma {:induction false} PrefixRun(run: seq<System>, n: nat)
    requires Run(run) && 0 < n <= |run|
    ensures Run(run[..n])
  {}

  lemma {:induction false} LimitSince(run: seq<System>, i: nat)
    requires Run(run) && i < |run| && run[|run| - 1].limiter.limit != run[i].limiter.limit
    ensures !run[i].limiter.hasBeenReset && run[|run| - 1].limiter.hasBeenReset
    decreases |run|
  {
    hide Inv, Next, Init;
    var n := |run| - 1;
    if i < n {
      assert Next(run[n - 1], run[n]);
      PrefixRun(run, n);
      RunKeepsInv(run[..n]);
      LimitStep(run[n - 1], run[n]);
      if run[n - 1].limiter.limit != run[i].limiter.limit {
        LimitSince(run[..n], i);
      } else if run[i].limiter.hasBeenReset {
        ResetStays(run[..n], i);
      }
    }
  }

  lemma {:induction false} ResetStays(run: seq<System>, i: nat)
    requires Run(run) && i < |run| && run[i].limiter.hasBeenReset
    ensures run[|run| - 1].limiter.hasBeenReset
    decreases |run|
  {
    hide Inv, Next, Init;
    var n := |run| - 1;
    if i < n {
      assert Next(run[n - 1], run[n]);
      PrefixRun(run, n);
      RunKeepsInv(run[..n]);
      LimitStep(run[n - 1], run[n]);
      ResetStays(run[..n], i);
    }
  }

  /** In step i of the run a decline passes the test of the limit, and at the end it still waits for the lock. */
  ghost predicate PassedAt(run: seq<System>, i: nat, tid: nat, used: int) {
    && i + 1 < |run| && tid !in run[i].waiting
    && tid in run[i].testing && run[i].testing[tid] == used
    && run[i + 1] == Test(run[i], tid) && tid in run[i + 1].waiting
    && tid in run[|run| - 1].waiting && run[|run| - 1].waiting[tid] == Decline(used)
  }

  /**
   * A decline that passed the tests before the lock is refused under the lock only if a reset took the
   * limit below its amount after the second of them.
   */
  lemma {:induction false} RefusedOnlyAfterReset(run: seq<System>, i: nat, tid: nat, used: int, delays: seq<nat>)
    requires Run(run) && PassedAt(run, i, tid, used) && |delays| == 4
    ensures var s := run[|run| - 1];
      !DeclineLoop(s.limiter, s.log, s.now, used, delays, 3).granted ==>
        && s.limiter.limit < used <= run[i].limiter.limit
        && !run[i].limiter.hasBeenReset && s.limiter.hasBeenReset
  {
    var s := run[|run| - 1];
    RunKeepsInv(run);
    assert s.limiter.lastCheck <= s.now;
    DeclineGrantedIff(s.limiter, s.log, s.now, used, delays);
    if s.limiter.limit < used {
      LimitSince(run, i);
    }
  }

  function LimitOf(limit: int, hasBeenReset: bool): Limiter {
    Limiter(limit, 100, 0.0, hasBeenReset, limit, 0)
  }

  /** Limit 100: a decline of 80 and a reset to 50 pass their tests, and the reset gets the lock first. */
  lemma {:induction false} DeclineRefused() returns (run: seq<System>)
    ensures Run(run) && PassedAt(run, 1, 0, 80)
    ensures forall delays :: |delays| == 4 ==>
      !DeclineLoop(run[|run| - 1].limiter, run[|run| - 1].log, run[|run| - 1].now, 80, delays, 3).granted
  {
    var decline, reset := Decline(80), ResetOnceTo(50);
    var s0 := Created(LimitOf(100, false), 0);
    var s1 := s0.(testing := map[0 := 80]);
    var s2 := s0.(waiting := map[0 := decline]);
    var s3 := s2.(waiting := map[0 := decline, 1 := reset]);
    var s4 := s3.(waiting := map[0 := decline], limiter := LimitOf(50, true));
    run := [s0, s1, s2, s3, s4];
    hide DeclineLoop, Locked;
    assert Init(s0) by { assert New(100, 0, 0.0, false, 0) == LimitOf(100, false); }
    assert Next(s0, s1) by { assert Idle(s0, 0) && s1 == Start(s0, 0, decline); }
    assert s2 == Test(s1, 0) by { assert map[0 := 80] - {0} == map[]; }
    assert Next(s1, s2);
    assert Next(s2, s3) by { assert Idle(s2, 1) && s3 == Start(s2, 1, reset); }
    assert Next(s3, s4) by { ResetStep(s3, s4); }
    forall delays: seq<nat> | |delays| == 4
      ensures !DeclineLoop(s4.limiter, s4.log, s4.now, 80, delays, 3).granted
    {
      DeclineGrantedIff(s4.limiter, s4.log, s4.now, 80, delays);
    }
  }

  lemma {:induction false} ResetStep(s: System, s': System)
    requires s.limiter == LimitOf(100, false) && 1 in s.waiting && s.waiting[1] == ResetOnceTo(50)
    requires s' == s.(waiting := s.waiting - {1}, limiter := LimitOf(50, true))
    ensures Next(s, s')
  {
    assert ResetOnce(s.limiter, 50) == LimitOf(50, true);
    var delays := [0, 0, 0, 0];
    assert s.log + [] == s.log;
    assert LockStep(s, s', 1, delays, false);
  }
}
