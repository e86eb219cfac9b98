/** The decisions of time_sync_thread_main (c/src/tse_worm.c) and what they add up to over a run
    of polls. */
module Schedule {
  import opened Wrappers

  const RENEW_MARGIN: nat := 3600
  const MIN_THRESHOLD: nat := 10

  /** hour:minute against the configured slot. */
  predicate PastSlot(hour: nat, minute: nat, slotHour: nat, slotMinute: nat) {
    hour > slotHour || (hour == slotHour && minute >= slotMinute)
  }

  predicate NeedSelfTest(selfTestOk: bool, scheduled: bool, until: Option<nat>) {
    !selfTestOk || scheduled || (until.Some? && until.value <= RENEW_MARGIN)
  }

  function Threshold(maxDelay: nat): nat {
    if maxDelay / 2 < MIN_THRESHOLD then MIN_THRESHOLD else maxDelay / 2
  }

  /** lastSync is 0 while this process has not synced the clock; a clock that ran backwards wraps
      to a huge unsigned age. */
  predicate NeedSync(valid: bool, lastSync: nat, now: nat, maxDelay: nat) {
    || !valid
    || lastSync == 0
    || (maxDelay > 0 && (now < lastSync || now - lastSync >= Threshold(maxDelay)))
  }

  /** A valid clock is synced anew when half its window and ten seconds have passed, and not before; an
      invalid clock, or one that this process has not synced, at once. */
  lemma SyncsAtHalfWindow(valid: bool, lastSync: nat, now: nat, maxDelay: nat)
    requires lastSync <= now
    ensures NeedSync(valid, lastSync, now, maxDelay) <==>
            var age := now - lastSync;
            !valid || lastSync == 0 || (maxDelay > 0 && age >= 10 && 2 * age + 1 >= maxDelay)
  {
  }

  /** A clock that ran backwards counts as too old. */
  lemma BackwardsIsOld(lastSync: nat, now: nat, maxDelay: nat)
    requires now < lastSync
    ensures NeedSync(true, lastSync, now, maxDelay) <==> maxDelay > 0
  {
  }

  /** No self-test is run without need: one that has passed and is good for more than an hour, or for an
      unknown time, waits for the daily slot. */
  lemma NoNeedlessTest(selfTestOk: bool, scheduled: bool, until: Option<nat>)
    ensures !NeedSelfTest(selfTestOk, scheduled, until) <==>
            selfTestOk && !scheduled && forall left :: until == Some(left) ==> left > 3600
  {
    if until.Some? && selfTestOk && !scheduled && until.value > RENEW_MARGIN {
      assert forall left :: until == Some(left) ==> left == until.value;
    }
  }

  // ----- The clock never lapses between polls -----

  /** The clock as this process (lastSync) and as the device (synced) see it. */
  datatype ClockState = ClockState(now: nat, lastSync: nat, synced: nat)

  predicate Fresh(s: ClockState, maxDelay: nat) {
    s.now - s.synced < maxDelay
  }

  /** What can happen to the clock: time passes, another thread syncs, or the poller wakes up. */
  datatype Tick = Wait(seconds: nat) | OtherSync | Poll

  function Apply(s: ClockState, t: Tick, maxDelay: nat): ClockState {
    match t
    case Wait(n) => s.(now := s.now + n)
    case OtherSync => s.(lastSync := s.now, synced := s.now)
    case Poll =>
      if NeedSync(Fresh(s, maxDelay), s.lastSync, s.now, maxDelay)
      then s.(lastSync := s.now, synced := s.now) else s
  }

  function Run(s: ClockState, ticks: seq<Tick>, maxDelay: nat): ClockState
    decreases |ticks|
  {
    if ticks == [] then s else Run(Apply(s, ticks[0], maxDelay), ticks[1..], maxDelay)
  }

  /** Never more than gap seconds without a poll, `since` of which have already passed. */
  predicate PollsWithin(ticks: seq<Tick>, since: nat, gap: nat)
    decreases |ticks|
  {
    if ticks == [] then since <= gap
    else match ticks[0]
      case Wait(n) => since + n <= gap && PollsWithin(ticks[1..], since + n, gap)
      case OtherSync => PollsWithin(ticks[1..], since, gap)
      case Poll => PollsWithin(ticks[1..], 0, gap)
  }

  /** `since` seconds after a poll the process knows the device's last sync, and its age is below
      the threshold plus `since`. */
  predicate Tracks(s: ClockState, since: nat, maxDelay: nat) {
    s.lastSync == s.synced && 0 < s.synced <= s.now && s.now - s.synced < Threshold(maxDelay) + since
  }

  /** From a time-sane state, whatever the device believed before, the first poll starts the
      tracking: lastSync may be unknown (0), but is never wrong. */
  predicate Sane(s: ClockState) {
    0 < s.now && s.synced <= s.now && (s.lastSync == 0 || s.lastSync == s.synced)
  }

  lemma FirstPollTracks(s: ClockState, maxDelay: nat)
    requires Sane(s) && maxDelay > 0
    ensures Tracks(Apply(s, Poll, maxDelay), 0, maxDelay)
  {
  }

  /** After the first poll the clock is valid at every later instant: every prefix of every run
      that keeps polling ends in a fresh state. */
  lemma {:induction false} ClockStaysValid(s: ClockState, ticks: seq<Tick>, since: nat, gap: nat, maxDelay: nat)
    requires Tracks(s, since, maxDelay) && since <= gap
    requires PollsWithin(ticks, since, gap)
    requires Threshold(maxDelay) + gap <= maxDelay
    ensures Fresh(Run(s, ticks, maxDelay), maxDelay)
    decreases |ticks|
  {
    if ticks != [] {
      var s' := Apply(s, ticks[0], maxDelay);
      match ticks[0]
      case Wait(n) => ClockStaysValid(s', ticks[1..], since + n, gap, maxDelay);
      case OtherSync => ClockStaysValid(s', ticks[1..], since, gap, maxDelay);
      case Poll => ClockStaysValid(s', ticks[1..], 0, gap, maxDelay);
    }
  }

  /** The bound in the terms of the device: with a window of at least 20 seconds, polls at most
      maxDelay - maxDelay / 2 apart are enough. */
  lemma ClockStaysValidAfterFirstPoll(s: ClockState, ticks: seq<Tick>, gap: nat, maxDelay: nat)
    requires Sane(s) && maxDelay >= 20 && gap <= maxDelay - maxDelay / 2
    requires PollsWithin(ticks, 0, gap)
    ensures Fresh(Run(s, [Poll] + ticks, maxDelay), maxDelay)
  {
    FirstPollTracks(s, maxDelay);
    assert ([Poll] + ticks)[1..] == ticks;
    ClockStaysValid(Apply(s, Poll, maxDelay), ticks, 0, gap, maxDelay);
  }

  /** n polls one second apart. */
  function Drumbeat(n: nat): seq<Tick> {
    if n == 0 then [] else [Wait(1), Poll] + Drumbeat(n - 1)
  }

  lemma {:induction false} DrumbeatIdles(s: ClockState, n: nat, rest: seq<Tick>, maxDelay: nat, gap: nat)
    requires s.lastSync == s.synced && 0 < s.synced <= s.now
    requires s.now - s.synced + n < Threshold(maxDelay) && Threshold(maxDelay) <= maxDelay && gap > 0
    ensures Run(s, Drumbeat(n) + rest, maxDelay) == Run(s.(now := s.now + n), rest, maxDelay)
    ensures PollsWithin(rest, 0, gap) ==> PollsWithin(Drumbeat(n) + rest, 0, gap)
    decreases n
  {
    if n == 0 {
      assert Drumbeat(n) + rest == rest;
    } else {
      var ticks := Drumbeat(n) + rest;
      assert ticks[0] == Wait(1) && ticks[1..][0] == Poll && ticks[1..][1..] == Drumbeat(n - 1) + rest;
      DrumbeatIdles(s.(now := s.now + 1), n - 1, rest, maxDelay, gap);
    }
  }

  /** The polling bound is exact: whenever it is broken, some run that polls in time still lets the
      clock lapse. */
  lemma ClockBoundIsTight(gap: nat, maxDelay: nat) returns (s: ClockState, ticks: seq<Tick>)
    requires maxDelay > 0 && gap > 0 && Threshold(maxDelay) + gap > maxDelay
    ensures Tracks(s, 0, maxDelay) && Fresh(s, maxDelay) && PollsWithin(ticks, 0, gap)
    ensures !Fresh(Run(s, ticks, maxDelay), maxDelay)
  {
    if Threshold(maxDelay) <= maxDelay {
      var n := Threshold(maxDelay) - 1;
      s, ticks := ClockState(1, 1, 1), Drumbeat(n) + [Wait(gap)];
      assert [Wait(gap)][1..] == [];
      assert PollsWithin([Wait(gap)], 0, gap);
      DrumbeatIdles(s, n, [Wait(gap)], maxDelay, gap);
    } else {
      // below the minimum threshold even a clock about to lapse is left alone
      s, ticks := ClockState(maxDelay, 1, 1), [Wait(1)];
      assert ticks[1..] == [];
    }
  }

  // ----- The self-test countdown -----

  /** Seconds until the next self-test is due; `full` right after one ran.  Zero or less means
      that it has lapsed. */
  function Countdown(until: int, ticks: seq<Tick>, full: nat): int
    decreases |ticks|
  {
    if ticks == [] then until
    else match ticks[0]
      case Wait(n) => Countdown(until - n, ticks[1..], full)
      case OtherSync => Countdown(until, ticks[1..], full)
      case Poll =>
        var due := NeedSelfTest(until > 0, false, Some(if until < 0 then 0 else until));
        Countdown(if due then full else until, ticks[1..], full)
  }

  /** Renewing within the last hour is early enough for polls at most an hour apart. */
  lemma {:induction false} SelfTestNeverLapses(until: int, ticks: seq<Tick>, since: nat, gap: nat, full: nat)
    requires until > gap - since && since <= gap <= 3600 && gap < full
    requires PollsWithin(ticks, since, gap)
    ensures Countdown(until, ticks, full) > 0
    decreases |ticks|
  {
    if ticks != [] {
      match ticks[0]
      case Wait(n) => SelfTestNeverLapses(until - n, ticks[1..], since + n, gap, full);
      case OtherSync => SelfTestNeverLapses(until, ticks[1..], since, gap, full);
      case Poll =>
        SelfTestNeverLapses(if until <= RENEW_MARGIN then full else until, ticks[1..], 0, gap, full);
    }
  }

  // ----- The daily self-test -----

  const DAY: nat := 86400

  /** Local time as a day number (from 1) and the second of that day. */
  datatype Instant = Instant(day: nat, second: nat)

  predicate IsTime(t: Instant) {
    t.day > 0 && t.second < DAY
  }

  function Seconds(t: Instant): nat {
    t.day * DAY + t.second
  }

  /** slot is in seconds of the day, on a whole minute. */
  predicate Past(t: Instant, slot: nat) {
    t.second >= slot
  }

  lemma PastSlotIsPast(t: Instant, hour: nat, minute: nat)
    requires minute < 60
    ensures PastSlot(t.second / 3600, t.second / 60 % 60, hour, minute) <==> Past(t, hour * 3600 + minute * 60)
  {
    var q := t.second / 60;
    var h, m := q / 60, q % 60;
    assert 60 * q <= t.second < 60 * q + 60 && q == 60 * h + m;
    HourIs(t.second, h);
    SlotIsMinutes(h, m, hour, minute);
  }

  lemma HourIs(second: nat, h: nat)
    requires 3600 * h <= second < 3600 * h + 3600
    ensures second / 3600 == h
  {
  }

  lemma SlotIsMinutes(h: nat, m: nat, hour: nat, minute: nat)
    requires m < 60 && minute < 60
    ensures PastSlot(h, m, hour, minute) <==> 60 * h + m >= 60 * hour + minute
  {
  }

  /** last_scheduled_self_test_day when the poller starts: a slot already past counts as done. */
  function InitialDay(start: Instant, slot: nat): nat {
    if Past(start, slot) then start.day else 0
  }

  predicate FiresNow(lastDay: nat, t: Instant, slot: nat) {
    Past(t, slot) && lastDay != t.day
  }

  /** The polls at which the scheduled self-test runs. */
  function Fires(lastDay: nat, polls: seq<Instant>, slot: nat): seq<Instant>
    decreases |polls|
  {
    if polls == [] then []
    else if FiresNow(lastDay, polls[0], slot) then [polls[0]] + Fires(polls[0].day, polls[1..], slot)
    else Fires(lastDay, polls[1..], slot)
  }

  ghost predicate Ordered(polls: seq<Instant>) {
    && (forall i :: 0 <= i < |polls| ==> IsTime(polls[i]))
    && (forall i, j :: 0 <= i < j < |polls| ==> Seconds(polls[i]) <= Seconds(polls[j]))
  }

  lemma DaysAdvance(s: Instant, t: Instant)
    requires IsTime(s) && IsTime(t) && Seconds(s) <= Seconds(t)
    ensures s.day <= t.day
  {
  }

  ghost predicate OncePerDay(f: seq<Instant>, lastDay: nat, polls: seq<Instant>, slot: nat) {
    && (forall i :: 0 <= i < |f| ==> f[i] in polls && Past(f[i], slot) && f[i].day > lastDay)
    && (forall i, j :: 0 <= i < j < |f| ==> f[i].day < f[j].day)
  }

  lemma FirstFiring(rest: seq<Instant>, lastDay: nat, polls: seq<Instant>, slot: nat)
    requires polls != [] && Past(polls[0], slot) && polls[0].day > lastDay
    requires OncePerDay(rest, polls[0].day, polls[1..], slot)
    ensures OncePerDay([polls[0]] + rest, lastDay, polls, slot)
  {
    forall i | 0 <= i < |rest|
      ensures rest[i] in polls
    {
      assert rest[i] in polls[1..];
    }
  }

  /** At most once per calendar day, never before the slot, and never on a day already done. */
  lemma {:induction false} FiresOncePerDay(lastDay: nat, polls: seq<Instant>, slot: nat)
    requires Ordered(polls) && (polls != [] ==> lastDay <= polls[0].day)
    ensures OncePerDay(Fires(lastDay, polls, slot), lastDay, polls, slot)
    decreases |polls|
  {
    if polls != [] {
      if |polls| > 1 {
        DaysAdvance(polls[0], polls[1]);
      }
      if FiresNow(lastDay, polls[0], slot) {
        FiresOncePerDay(polls[0].day, polls[1..], slot);
        FirstFiring(Fires(polls[0].day, polls[1..], slot), lastDay, polls, slot);
      } else {
        FiresOncePerDay(lastDay, polls[1..], slot);
      }
    }
  }

  /** A poll past the slot of a day not yet done means that the self-test fires on that day. */
  lemma {:induction false} FiresOnPolledDay(lastDay: nat, polls: seq<Instant>, slot: nat, k: nat)
    requires Ordered(polls) && (polls != [] ==> lastDay <= polls[0].day)
    requires k < |polls| && Past(polls[k], slot) && lastDay < polls[k].day
    ensures exists i :: 0 <= i < |Fires(lastDay, polls, slot)| && Fires(lastDay, polls, slot)[i].day == polls[k].day
    decreases |polls|
  {
    var f := Fires(lastDay, polls, slot);
    if |polls| > 1 {
      DaysAdvance(polls[0], polls[1]);
    }
    if FiresNow(lastDay, polls[0], slot) {
      if polls[0].day == polls[k].day {
        assert f[0].day == polls[k].day;
      } else {
        if k > 0 { DaysAdvance(polls[0], polls[k]); }
        FiresOnPolledDay(polls[0].day, polls[1..], slot, k - 1);
        var g := Fires(polls[0].day, polls[1..], slot);
        var i :| 0 <= i < |g| && g[i].day == polls[k].day;
        assert f[i + 1] == g[i];
      }
    } else {
      FiresOnPolledDay(lastDay, polls[1..], slot, k - 1);
    }
  }

  /** Among polls at most gap apart that reach from before a moment to it or beyond, the first one at
      or after the moment is less than gap late. */
  lemma {:induction false} SomePollSoonAfter(polls: seq<Instant>, moment: nat, gap: nat) returns (k: nat)
    requires |polls| > 0 && Seconds(polls[0]) < moment <= Seconds(polls[|polls| - 1])
    requires Steady(polls, gap)
    ensures 0 < k < |polls| && moment <= Seconds(polls[k]) < moment + gap
    decreases |polls|
  {
    var n := |polls| - 1;
    if Seconds(polls[n - 1]) < moment {
      k := n;
    } else {
      k := SomePollSoonAfter(polls[..n], moment, gap);
    }
  }

  ghost predicate Steady(polls: seq<Instant>, gap: nat) {
    forall i :: 0 < i < |polls| ==> Seconds(polls[i]) <= Seconds(polls[i - 1]) + gap
  }

  lemma TailOrdered(start: Instant, polls: seq<Instant>)
    requires Ordered([start] + polls)
    ensures Ordered(polls) && (polls != [] ==> start.day <= polls[0].day)
  {
    var all := [start] + polls;
    assert forall i :: 0 <= i < |polls| ==> polls[i] == all[i + 1];
    if polls != [] {
      assert all[0] == start && all[1] == polls[0];
      DaysAdvance(start, polls[0]);
    }
  }

  /** Started before the slot of a day (today's or a later one's) and polling at most gap seconds
      apart until past it, the poller runs the self-test on that day, and only once. */
  lemma FiresExactlyOnce(start: Instant, polls: seq<Instant>, slot: nat, gap: nat, day: nat)
    requires IsTime(start) && Ordered([start] + polls) && Steady([start] + polls, gap) && polls != []
    requires slot + gap <= DAY
    requires Seconds(start) < day * DAY + slot <= Seconds(polls[|polls| - 1])
    ensures var f := Fires(InitialDay(start, slot), polls, slot);
            exists i :: 0 <= i < |f| && f[i].day == day
                        && forall j :: 0 <= j < |f| && f[j].day == day ==> j == i
  {
    var all := [start] + polls;
    var k := SomePollSoonAfter(all, day * DAY + slot, gap);
    TailOrdered(start, polls);
    SameDay(polls[k - 1], day);
    var lastDay := InitialDay(start, slot);
    FiresOnPolledDay(lastDay, polls, slot, k - 1);
    FiresOncePerDay(lastDay, polls, slot);
    OnlyOneFires(Fires(lastDay, polls, slot), lastDay, polls, slot, day);
  }

  lemma OnlyOneFires(f: seq<Instant>, lastDay: nat, polls: seq<Instant>, slot: nat, day: nat)
    requires OncePerDay(f, lastDay, polls, slot) && exists i :: 0 <= i < |f| && f[i].day == day
    ensures exists i :: 0 <= i < |f| && f[i].day == day && forall j :: 0 <= j < |f| && f[j].day == day ==> j == i
  {
    var i :| 0 <= i < |f| && f[i].day == day;
    assert forall j :: 0 <= j < |f| && f[j].day == day ==> j == i;
  }

  lemma SameDay(t: Instant, day: nat)
    requires IsTime(t) && day * DAY <= Seconds(t) < day * DAY + DAY
    ensures t.day == day
  {
  }

  /** A day the poller started on past its slot is skipped. */
  lemma LateStartSkipsDay(start: Instant, polls: seq<Instant>, slot: nat)
    requires IsTime(start) && Ordered([start] + polls) && Past(start, slot)
    ensures forall f :: f in Fires(InitialDay(start, slot), polls, slot) ==> f.day > start.day
  {
    TailOrdered(start, polls);
    FiresOncePerDay(start.day, polls, slot);
  }
}
