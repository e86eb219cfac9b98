/** A run of the poller (Worm.RunPoller) is a run of the clock model (Schedule.Run): what
    time_sync_thread_main of c/src/tse_worm.c adds up to when the device tells the truth about its
    clock. */
module Poller {
  import opened Schedule
  import opened Worm

  lemma {:induction false} RunJoin(s: ClockState, a: seq<Tick>, b: seq<Tick>, maxDelay: nat)
    ensures Run(s, a + b, maxDelay) == Run(Run(s, a, maxDelay), b, maxDelay)
    decreases |a|
  {
    if a == [] {
      assert a + b == b;
    } else {
      assert (a + b)[1..] == a[1..] + b;
      RunJoin(Apply(s, a[0], maxDelay), a[1..], b, maxDelay);
    }
  }

  /** What happens to the clock from the instant t up to the end of one poll: time passes, the poller
      wakes up, and when it syncs the clock some time later, the device is in step from then on. */
  function Turn(t: nat, p: Report): seq<Tick>
    requires OnTime(t, p)
  {
    [Wait(p.now - t), Poll] + if p.noted.Some? then [Wait(p.noted.value - p.now), OtherSync] else []
  }

  /** The clock does not run backwards. */
  predicate OnTime(t: nat, p: Report) {
    t <= p.now && (p.noted.Some? ==> p.now <= p.noted.value)
  }

  /** The end of the last poll. */
  function EndOf(t: nat, reports: seq<Report>): nat {
    if reports == [] then t
    else
      var p := reports[|reports| - 1];
      if p.noted.Some? then p.noted.value else p.now
  }

  predicate AllOnTime(t: nat, reports: seq<Report>) {
    forall k :: 0 <= k < |reports| ==> OnTime(EndOf(t, reports[..k]), reports[k])
  }

  lemma FrontOnTime(t: nat, reports: seq<Report>)
    requires AllOnTime(t, reports) && reports != []
    ensures var n := |reports| - 1; AllOnTime(t, reports[..n]) && OnTime(EndOf(t, reports[..n]), reports[n])
  {
    var n := |reports| - 1;
    hide OnTime, EndOf;
    forall k | 0 <= k < n
      ensures OnTime(EndOf(t, reports[..n][..k]), reports[..n][k])
    {
      assert reports[..n][..k] == reports[..k];
    }
  }

  /** The clock model's steps of a series of polls. */
  function Ticks(t: nat, reports: seq<Report>): seq<Tick>
    requires AllOnTime(t, reports)
  {
    if reports == [] then []
    else
      var n := |reports| - 1;
      FrontOnTime(t, reports);
      Ticks(t, reports[..n]) + Turn(EndOf(t, reports[..n]), reports[n])
  }

  function After(s: ClockState, reports: seq<Report>, maxDelay: nat): ClockState
    requires AllOnTime(s.now, reports)
  {
    Run(s, Ticks(s.now, reports), maxDelay)
  }

  lemma AfterNext(s: ClockState, reports: seq<Report>, maxDelay: nat)
    requires AllOnTime(s.now, reports) && reports != []
    ensures var n := |reports| - 1; var t := EndOf(s.now, reports[..n]);
            && AllOnTime(s.now, reports[..n]) && OnTime(t, reports[n])
            && After(s, reports, maxDelay) == Run(After(s, reports[..n], maxDelay), Turn(t, reports[n]), maxDelay)
  {
    hide Run, EndOf, OnTime, Turn;
    var n := |reports| - 1;
    FrontOnTime(s.now, reports);
    RunJoin(s, Ticks(s.now, reports[..n]), Turn(EndOf(s.now, reports[..n]), reports[n]), maxDelay);
  }

  /** The state after one poll. */
  function Polled(s: ClockState, p: Report, maxDelay: nat): ClockState {
    var q := Apply(s.(now := p.now), Poll, maxDelay);
    if p.noted.Some? then ClockState(p.noted.value, p.noted.value, p.noted.value) else q
  }

  lemma TurnIsPolled(s: ClockState, p: Report, maxDelay: nat)
    requires OnTime(s.now, p)
    ensures Run(s, Turn(s.now, p), maxDelay) == Polled(s, p, maxDelay)
  {
    hide NeedSync, Fresh;
    var ticks := Turn(s.now, p);
    var q := Apply(Apply(s, ticks[0], maxDelay), Poll, maxDelay);
    var rest := if p.noted.Some? then [Wait(p.noted.value - p.now), OtherSync] else [];
    assert ticks[1..] == [Poll] + rest && ([Poll] + rest)[1..] == rest;
    assert Run(s, ticks, maxDelay) == Run(Apply(s, ticks[0], maxDelay), [Poll] + rest, maxDelay);
    assert Run(s, ticks, maxDelay) == Run(q, rest, maxDelay);
    if p.noted.Some? {
      RunTwo(q, rest[0], rest[1], maxDelay);
    }
  }

  lemma RunTwo(s: ClockState, a: Tick, b: Tick, maxDelay: nat)
    ensures Run(s, [a, b], maxDelay) == Apply(Apply(s, a, maxDelay), b, maxDelay)
  {
    hide Apply;
    var t := Apply(s, a, maxDelay);
    assert [a, b][1..] == [b] && [b][1..] == [];
    assert Run(s, [a, b], maxDelay) == Run(t, [b], maxDelay) == Run(Apply(t, b, maxDelay), [], maxDelay);
  }

  /** The device said at the k-th poll whether its clock was younger than maxDelay. */
  predicate TruthAt(s: ClockState, reports: seq<Report>, maxDelay: nat, k: nat)
    requires AllOnTime(s.now, reports) && k < |reports|
  {
    FrontsOnTime(s.now, reports, k);
    var p := reports[k];
    p.valid == Fresh(After(s, reports[..k], maxDelay).(now := p.now), maxDelay)
  }

  lemma FrontsOnTime(t: nat, reports: seq<Report>, k: nat)
    requires AllOnTime(t, reports) && k <= |reports|
    ensures AllOnTime(t, reports[..k])
  {
    hide OnTime, EndOf;
    forall j | 0 <= j < k
      ensures OnTime(EndOf(t, reports[..k][..j]), reports[..k][j])
    {
      assert reports[..k][..j] == reports[..j];
    }
  }

  predicate Truthful(s: ClockState, reports: seq<Report>, maxDelay: nat) {
    AllOnTime(s.now, reports) && forall k :: 0 <= k < |reports| ==> TruthAt(s, reports, maxDelay, k)
  }

  /** What Worm.RunPoller ensures about its reports on a healthy and honest device with this window. */
  predicate AsReported(s: ClockState, reports: seq<Report>, maxDelay: nat) {
    AllDecided(s.lastSync, reports) && AllNoted(reports) && AllWindow(reports, maxDelay)
  }

  lemma TruthfulFront(s: ClockState, reports: seq<Report>, maxDelay: nat)
    requires Truthful(s, reports, maxDelay) && AsReported(s, reports, maxDelay) && reports != []
    ensures var n := |reports| - 1;
            && Truthful(s, reports[..n], maxDelay) && AsReported(s, reports[..n], maxDelay)
            && TruthAt(s, reports, maxDelay, n) && Decided(s.lastSync, reports, n)
            && reports[n].maxDelay == maxDelay && (reports[n].synced ==> reports[n].noted.Some?)
  {
    hide After, LastSyncAfter, NeedSync, OnTime, EndOf, Fresh;
    var n := |reports| - 1;
    FrontOnTime(s.now, reports);
    forall k | 0 <= k < n
      ensures TruthAt(s, reports[..n], maxDelay, k) && Decided(s.lastSync, reports[..n], k)
    {
      assert reports[..n][..k] == reports[..k];
      assert TruthAt(s, reports, maxDelay, k) && Decided(s.lastSync, reports, k);
    }
  }

  /** The g_last_time_sync values of a run of polls are those of the clock model. */
  lemma {:induction false} PollsFollowRun(s: ClockState, reports: seq<Report>, maxDelay: nat)
    requires Truthful(s, reports, maxDelay) && AsReported(s, reports, maxDelay)
    ensures var q := After(s, reports, maxDelay);
            q.lastSync == LastSyncAfter(s.lastSync, reports) && q.now == EndOf(s.now, reports)
    decreases |reports|
  {
    hide After, Run, Fresh, AsReported, Truthful, AllOnTime;
    if reports == [] {
      NoPolls(s, maxDelay);
    } else {
      var n := |reports| - 1;
      TruthfulFront(s, reports, maxDelay);
      PollsFollowRun(s, reports[..n], maxDelay);
      TruthfulIsOnTime(s, reports, maxDelay);
      AfterNext(s, reports, maxDelay);
      TurnIsPolled(After(s, reports[..n], maxDelay), reports[n], maxDelay);
    }
  }

  lemma NoPolls(s: ClockState, maxDelay: nat)
    ensures AllOnTime(s.now, []) && After(s, [], maxDelay) == s
  {
  }

  lemma TruthfulIsOnTime(s: ClockState, reports: seq<Report>, maxDelay: nat)
    requires Truthful(s, reports, maxDelay)
    ensures AllOnTime(s.now, reports)
  {
  }

  /** Never more than gap seconds from one poll to the next. */
  predicate Spaced(reports: seq<Report>, gap: nat) {
    forall k :: 0 < k < |reports| ==> reports[k].now <= reports[k - 1].now + gap
  }

  /** After a poll the process is in step with the device, whatever it knew before. */
  lemma PolledTracks(s: ClockState, p: Report, since: nat, maxDelay: nat)
    requires OnTime(s.now, p) && maxDelay > 0
    requires Sane(s) || Tracks(s, since, maxDelay)
    ensures var q := Polled(s, p, maxDelay); q.now >= p.now && Tracks(q, q.now - p.now, maxDelay)
  {
    assert Sane(s.(now := p.now));
    FirstPollTracks(s.(now := p.now), maxDelay);
  }

  lemma {:induction false} KeepsTrack(s: ClockState, reports: seq<Report>, maxDelay: nat)
    requires Truthful(s, reports, maxDelay) && AsReported(s, reports, maxDelay) && reports != []
    requires Sane(s) && maxDelay > 0
    ensures var q := After(s, reports, maxDelay); var p := reports[|reports| - 1];
            q.now >= p.now && Tracks(q, q.now - p.now, maxDelay)
    decreases |reports|
  {
    hide After, Run, AsReported, Truthful, AllOnTime, Tracks, Sane, Polled, Turn, EndOf, OnTime, TruthAt, Decided;
    var n := |reports| - 1;
    TruthfulIsOnTime(s, reports, maxDelay);
    TruthfulFront(s, reports, maxDelay);
    PollsFollowRun(s, reports[..n], maxDelay);
    AfterNext(s, reports, maxDelay);
    var q := After(s, reports[..n], maxDelay);
    TurnIsPolled(q, reports[n], maxDelay);
    if n == 0 {
      NoPolls(s, maxDelay);
      assert reports[..n] == [];
      PolledTracks(q, reports[n], 0, maxDelay);
    } else {
      KeepsTrack(s, reports[..n], maxDelay);
      PolledTracks(q, reports[n], q.now - reports[..n][n - 1].now, maxDelay);
    }
  }

  /** The clock is fresh for gap seconds after the last poll. */
  lemma FreshTillNext(s: ClockState, reports: seq<Report>, maxDelay: nat, gap: nat, t: nat)
    requires Truthful(s, reports, maxDelay) && AsReported(s, reports, maxDelay) && reports != []
    requires Sane(s) && maxDelay >= 20 && gap <= maxDelay - maxDelay / 2
    requires After(s, reports, maxDelay).now <= t <= reports[|reports| - 1].now + gap
    ensures Fresh(After(s, reports, maxDelay).(now := t), maxDelay)
  {
    hide After, Truthful, AsReported, AllOnTime;
    KeepsTrack(s, reports, maxDelay);
  }

  /** A poller that wakes up often enough never again finds the clock invalid: at every poll but the first
      the device reports a valid time. */
  lemma PollerKeepsClock(s: ClockState, reports: seq<Report>, maxDelay: nat, gap: nat, k: nat)
    requires Truthful(s, reports, maxDelay) && AsReported(s, reports, maxDelay) && Sane(s)
    requires maxDelay >= 20 && gap <= maxDelay - maxDelay / 2 && Spaced(reports, gap)
    requires 0 < k < |reports|
    ensures reports[k].valid
    decreases |reports|
  {
    hide After, Truthful, AsReported, AllOnTime, Fresh, Sane, LastSyncAfter, NeedSync;
    TruthfulFront(s, reports, maxDelay);
    var n := |reports| - 1;
    if k < n {
      PollerKeepsClock(s, reports[..n], maxDelay, gap, k);
    } else {
      TruthfulIsOnTime(s, reports, maxDelay);
      FrontOnTime(s.now, reports);
      PollsFollowRun(s, reports[..n], maxDelay);
      FreshTillNext(s, reports[..n], maxDelay, gap, reports[n].now);
    }
  }
}
