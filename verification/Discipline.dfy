/** What the discipline monitor of Device means, read off the call log itself. */
module Discipline {
  import opened Wrappers
  import opened Device

  function Count(log: seq<Event>, p: Event -> bool): nat {
    if log == [] then 0
    else Count(log[..|log| - 1], p) + if p(log[|log| - 1]) then 1 else 0
  }

  predicate IsLogin(e: Event) { e.cmd.Login? && e.reply.rc == NOERROR }

  predicate IsLogout(e: Event) { e.cmd.Logout? }

  predicate IsLock(e: Event) { e.cmd == Lock }

  predicate IsUnlock(e: Event) { e.cmd == Unlock }

  predicate Frees(e: Event, h: Handle) { e.cmd == InfoFree(h) || e.cmd == ResponseFree(h) }

  predicate Uses(e: Event, h: Handle) {
    match e.cmd
    case InfoRead(i) => i == h
    case InfoGet(i, _) => i == h
    case InfoFree(i) => i == h
    case ResponseRead(r) => r == h
    case ResponseFree(r) => r == h
    case TxStart(_, r) => r == h
    case TxFinish(_, _, r) => r == h
    case _ => false
  }

  /** The call at position i made a handle, and not the null one. */
  predicate Makes(e: Event) { (e.cmd == InfoNew || e.cmd == ResponseNew) && e.reply.rc != 0 }

  lemma ScanLast(log: seq<Event>)
    requires log != []
    ensures Scan(log) == Watch(Scan(log[..|log| - 1]), |log| - 1, log[|log| - 1])
  {
  }

  lemma {:induction false} ScanPrefixOk(log: seq<Event>, i: nat)
    requires Scan(log).ok && i <= |log|
    ensures Scan(log[..i]).ok
    decreases |log|
  {
    if i == |log| {
      assert log[..i] == log;
    } else {
      ScanLast(log);
      ScanPrefixOk(log[..|log| - 1], i);
      assert log[..|log| - 1][..i] == log[..i];
    }
  }

  /** Every call in an accepted log was allowed where it was made. */
  lemma {:induction false} AllowedAt(log: seq<Event>, i: nat)
    requires Scan(log).ok && i < |log|
    ensures Allowed(Scan(log[..i]), log[i].cmd)
  {
    ScanPrefixOk(log, i + 1);
    ScanLast(log[..i + 1]);
    assert log[..i + 1][..i] == log[..i];
  }

  /** Each successful login is ended by exactly one logout, apart from a session still open. */
  lemma {:induction false} LoginsMatchLogouts(log: seq<Event>)
    requires Scan(log).ok
    ensures Count(log, IsLogin) == Count(log, IsLogout) + if Scan(log).session.Some? then 1 else 0
  {
    if log != [] {
      ScanLast(log);
      LoginsMatchLogouts(log[..|log| - 1]);
    }
  }

  /** g_worm_mu is taken and released alternately, and is free at the end. */
  lemma {:induction false} LocksMatchUnlocks(log: seq<Event>)
    requires Scan(log).ok
    ensures Count(log, IsLock) == Count(log, IsUnlock) + if Scan(log).locked then 1 else 0
  {
    if log != [] {
      ScanLast(log);
      LocksMatchUnlocks(log[..|log| - 1]);
    }
  }

  lemma SessionStep(m: Monitor, n: nat, e: Event, u: User)
    requires Watch(m, n, e).ok && Watch(m, n, e).session == Some(u)
    ensures m.ok
    ensures if e.cmd.Login? then e.cmd.user == u && e.reply.rc == NOERROR else m.session == Some(u) && !e.cmd.Logout?
  {
    hide Heard;
  }

  /** The session open at the end of a log was opened by its last login, with no logout since. */
  lemma {:induction false} SessionStart(log: seq<Event>, u: User) returns (j: nat)
    requires Scan(log).ok && Scan(log).session == Some(u)
    ensures j < |log| && log[j].cmd == Login(u) && log[j].reply.rc == NOERROR
    ensures forall k :: j < k < |log| ==> !log[k].cmd.Login? && !log[k].cmd.Logout?
  {
    hide Watch;
    if log == [] {
      assert false;
    }
    ScanLast(log);
    var n := |log| - 1;
    SessionStep(Scan(log[..n]), n, log[n], u);
    if log[n].cmd == Login(u) && log[n].reply.rc == NOERROR {
      j := n;
    } else {
      j := SessionStart(log[..n], u);
      assert forall k :: j < k < n ==> log[..n][k] == log[k];
    }
  }

  /** Every updateTime lies in a TimeAdmin session: a successful TimeAdmin login precedes it with no
      other login or logout in between. */
  lemma UpdateTimeInsideSession(log: seq<Event>, i: nat) returns (j: nat)
    requires Scan(log).ok && i < |log| && log[i].cmd.UpdateTime?
    ensures j < i && log[j].cmd == Login(TimeAdmin) && log[j].reply.rc == NOERROR
    ensures forall k :: j < k < i ==> !log[k].cmd.Login? && !log[k].cmd.Logout?
  {
    AllowedAt(log, i);
    ScanPrefixOk(log, i);
    j := SessionStart(log[..i], TimeAdmin);
    assert forall k :: j < k < i ==> log[..i][k] == log[k];
  }

  /** What one call tells the monitor. */
  lemma WatchHears(m: Monitor, n: nat, e: Event)
    ensures var w, now := Watch(m, n, e), e.reply.num;
            && w.clock == (if e.cmd == Clock then Some(now) else None)
            && w.asked == (if e.cmd == Lock then SILENCE
                           else if e.cmd.InfoGet? then Put(m.asked, e.cmd.field, now) else m.asked)
            && w.polled == (if e.cmd == Clock && m.session == None then Some(Polled(m.asked, now)) else m.polled)
  {
    hide Put;
  }

  /** The monitor's clock is the reply of the last call. */
  lemma ClockIsFresh(log: seq<Event>)
    requires Scan(log).clock.Some?
    ensures log != [] && log[|log| - 1].cmd == Clock && Scan(log).clock == Some(log[|log| - 1].reply.num)
  {
    hide Watch;
    if log != [] {
      ScanLast(log);
      WatchHears(Scan(log[..|log| - 1]), |log| - 1, log[|log| - 1]);
    }
  }

  /** The time sent to the device is always the one just read from the clock. */
  lemma UpdateSendsTheClock(log: seq<Event>, i: nat)
    requires Scan(log).ok && i < |log| && log[i].cmd.UpdateTime?
    ensures i > 0 && log[i - 1].cmd == Clock && log[i - 1].reply.num == log[i].cmd.now
  {
    hide Scan;
    AllowedAt(log, i);
    ClockIsFresh(log[..i]);
  }

  /** The last reply of a getter since the lock was taken. */
  function LastAnswer(log: seq<Event>, f: Field): Option<nat> {
    if log == [] then None
    else
      var e := log[|log| - 1];
      if e.cmd == Lock then None
      else if e.cmd.InfoGet? && e.cmd.field == f then Some(e.reply.num)
      else LastAnswer(log[..|log| - 1], f)
  }

  lemma {:induction false} AskedIsLast(log: seq<Event>, f: Field)
    ensures Get(Scan(log).asked, f) == LastAnswer(log, f)
  {
    hide Watch;
    if log != [] {
      var n := |log| - 1;
      ScanLast(log);
      WatchHears(Scan(log[..n]), n, log[n]);
      AskedIsLast(log[..n], f);
    }
  }

  predicate ReadsClockOutside(log: seq<Event>, i: nat)
    requires i < |log|
  {
    log[i].cmd == Clock && Scan(log[..i]).session == None
  }

  /** What a poll heard: the last replies of the getters before the last reading of the clock outside a
      session, and that clock. */
  lemma {:induction false} PolledIsHeard(log: seq<Event>) returns (i: nat)
    requires Scan(log).polled.Some?
    ensures i < |log| && ReadsClockOutside(log, i) && Scan(log).polled.value.now == log[i].reply.num
    ensures forall f :: Get(Scan(log).polled.value.answers, f) == LastAnswer(log[..i], f)
    ensures forall j :: i < j < |log| ==> !ReadsClockOutside(log, j)
  {
    hide Watch, LastAnswer, Get;
    if log == [] {
      assert false;
    }
    ScanLast(log);
    var n := |log| - 1;
    WatchHears(Scan(log[..n]), n, log[n]);
    if ReadsClockOutside(log, n) {
      i := n;
      forall f
        ensures Get(Scan(log).polled.value.answers, f) == LastAnswer(log[..i], f)
      {
        AskedIsLast(log[..n], f);
      }
    } else {
      i := PolledIsHeard(log[..n]);
      forall j | i <= j < n
        ensures ReadsClockOutside(log, j) == ReadsClockOutside(log[..n], j)
      {
        assert log[..n][..j] == log[..j];
      }
      assert log[..n][..i] == log[..i];
    }
  }

  lemma {:induction false} LiveHandlesAreYoung(log: seq<Event>, h: Handle)
    requires h in Scan(log).live
    ensures 0 < h <= |log| && Makes(log[h - 1])
  {
    hide Watch;
    if log != [] {
      ScanLast(log);
      var n := |log| - 1;
      LiveHandleStep(Scan(log[..n]), n, log[n], h);
      if h in Scan(log[..n]).live {
        LiveHandlesAreYoung(log[..n], h);
      }
    }
  }

  function FreesOf(h: Handle): Event -> bool {
    (e: Event) => Frees(e, h)
  }

  /** Each handle libWormAPI gives out is freed exactly once, unless it is still alive; no call is
      ever made with a handle before it was made or after it was freed. */
  lemma {:induction false} HandlesFreedOnce(log: seq<Event>, h: Handle)
    requires Scan(log).ok
    ensures Count(log, FreesOf(h)) ==
            if 0 < h <= |log| && Makes(log[h - 1]) && h !in Scan(log).live then 1 else 0
  {
    if log == [] {
    } else {
      var n := |log| - 1;
      ScanLast(log);
      HandlesFreedOnce(log[..n], h);
      LiveHandleStep(Scan(log[..n]), n, log[n], h);
      hide Scan, Watch, Allowed;
      if h in Scan(log).live {
        LiveHandlesAreYoung(log, h);
      }
      if h in Scan(log[..n]).live {
        LiveHandlesAreYoung(log[..n], h);
      }
    }
  }

  /** A call makes a handle live, ends it, or leaves it as it was. */
  lemma LiveHandleStep(m: Monitor, n: nat, e: Event, h: Handle)
    ensures Watch(m, n, e).ok ==> m.ok && (Frees(e, h) ==> h in m.live)
    ensures (h in Watch(m, n, e).live) ==
            if Makes(e) && h == n + 1 then true
            else h in m.live && !Frees(e, h) && (h != 0 || (e.cmd != InfoNew && e.cmd != ResponseNew))
  {
    hide Heard;
  }

  lemma UsedWhileAlive(log: seq<Event>, i: nat, h: Handle)
    requires Scan(log).ok && i < |log| && Uses(log[i], h)
    ensures 0 < h <= i && Makes(log[h - 1])
    ensures Count(log[..i], FreesOf(h)) == 0
  {
    AllowedAt(log, i);
    ScanPrefixOk(log, i);
    LiveHandlesAreYoung(log[..i], h);
    HandlesFreedOnce(log[..i], h);
  }

  /** An operation that starts and ends at rest leaves equally many logins and logouts, locks and
      unlocks behind, and has freed every handle it made. */
  lemma RestIsClean(log: seq<Event>)
    requires AtRest(Scan(log))
    ensures Count(log, IsLogin) == Count(log, IsLogout)
    ensures Count(log, IsLock) == Count(log, IsUnlock)
    ensures forall i :: 0 <= i < |log| && Makes(log[i]) ==> Count(log, FreesOf(i + 1)) == 1
  {
    LoginsMatchLogouts(log);
    LocksMatchUnlocks(log);
    forall i | 0 <= i < |log| && Makes(log[i])
      ensures Count(log, FreesOf(i + 1)) == 1
    {
      HandlesFreedOnce(log, i + 1);
    }
  }
}
