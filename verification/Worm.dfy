/** The recovery protocol of c/src/tse_worm.c: self-test, time sync, retry once, and the
    operations built on them.

    The static variables of the C file are the fields of one class.  Every call into libWormAPI
    goes through Call, which takes the reply from an arbitrary oracle and logs it. */
module Worm {
  import opened Wrappers
  import opened ClientId
  import opened Device
  import opened Schedule

  const CACHE_MAX: nat := 64

  /** Which optional symbols libWormAPI resolved. */
  datatype Api = Api(
    selfTest: bool,
    register: bool,
    login: bool,
    updateTime: bool,
    logout: bool,
    hasPassedSelfTest: bool,
    hasValidTime: bool,
    maxTimeSyncDelay: bool,
    timeUntilNextSelfTest: bool,
    exportTar: bool)

  const FULL_API := Api(true, true, true, true, true, true, true, true, true, true)

  /** What one poll read and decided. */
  datatype Report = Report(
    valid: bool,
    selfTestOk: bool,
    maxDelay: nat,
    until: Option<nat>,
    now: nat,
    fired: bool,      // the daily self-test
    renewed: bool,    // a self-test was run
    synced: bool,     // perform_time_sync was called
    noted: Option<nat>)   // the clock reply it noted as g_last_time_sync

  /** A report holds the replies of the getters, a default for each that was not read, and the clock. */
  predicate SaysWhatItHeard(p: Report, h: Polled) {
    && p.now == h.now && p.until == h.answers.countdown
    && p.selfTestOk == (h.answers.passed != Some(0)) && p.valid == (h.answers.valid != Some(0))
    && p.maxDelay == if h.answers.window.Some? then h.answers.window.value else 0
  }

  /** g_last_time_sync after a series of polls. */
  function LastSyncAfter(last: nat, reports: seq<Report>): nat {
    var k := |reports| - 1;
    if reports == [] then last
    else if reports[k].noted.Some? then reports[k].noted.value
    else LastSyncAfter(last, reports[..k])
  }

  /** The k-th poll decided about its time sync by what the ones before it left. */
  predicate Decided(last: nat, reports: seq<Report>, k: nat)
    requires k < |reports|
  {
    var p := reports[k];
    && p.synced == (p.fired || NeedSync(p.valid, LastSyncAfter(last, reports[..k]), p.now, p.maxDelay))
    && (p.noted.Some? ==> p.synced)
  }

  predicate AllDecided(last: nat, reports: seq<Report>) {
    forall k :: 0 <= k < |reports| ==> Decided(last, reports, k)
  }

  lemma DecidedNext(last: nat, reports: seq<Report>, p: Report)
    requires AllDecided(last, reports) && (p.noted.Some? ==> p.synced)
    requires p.synced == (p.fired || NeedSync(p.valid, LastSyncAfter(last, reports), p.now, p.maxDelay))
    ensures AllDecided(last, reports + [p])
    ensures LastSyncAfter(last, reports + [p]) == if p.noted.Some? then p.noted.value else LastSyncAfter(last, reports)
  {
    hide NeedSync, LastSyncAfter;
    var all := reports + [p];
    assert all[..|reports|] == reports;
    forall k | 0 <= k < |all|
      ensures Decided(last, all, k)
    {
      if k < |reports| {
        assert all[..k] == reports[..k] && Decided(last, reports, k);
      }
    }
    NotedLast(last, all);
  }

  lemma NotedLast(last: nat, reports: seq<Report>)
    requires reports != []
    ensures var k := |reports| - 1;
            LastSyncAfter(last, reports)
            == if reports[k].noted.Some? then reports[k].noted.value else LastSyncAfter(last, reports[..k])
  {
  }

  /** Every time sync worked. */
  predicate AllNoted(reports: seq<Report>) {
    forall k :: 0 <= k < |reports| && reports[k].synced ==> reports[k].noted.Some?
  }

  /** Every report has the device's own window. */
  predicate AllWindow(reports: seq<Report>, window: nat) {
    forall k :: 0 <= k < |reports| ==> reports[k].maxDelay == window
  }

  lemma NotedNext(reports: seq<Report>, p: Report)
    ensures AllNoted(reports) && (p.synced ==> p.noted.Some?) ==> AllNoted(reports + [p])
    ensures AllWindow(reports, p.maxDelay) ==> AllWindow(reports + [p], p.maxDelay)
  {
  }

  lemma NothingYet(last: nat)
    ensures AllDecided(last, []) && LastSyncAfter(last, []) == last && AllNoted([])
    ensures forall w :: AllWindow([], w)
  {
  }

  /** The log ends in an updateTime with the clock just read, which worked, the clock reply t, and the
      logout. */
  predicate EndsInSync(log: seq<Event>, t: nat) {
    var n := |log|;
    && n >= 4 && log[n - 4].cmd == Clock && log[n - 3].cmd == UpdateTime(log[n - 4].reply.num)
    && log[n - 3].reply.rc == NOERROR
    && log[n - 2].cmd == Clock && log[n - 2].reply.num == t && log[n - 1].cmd == Logout(TimeAdmin)
  }

  /** The calls of a registration: inside an Admin session if one is wanted and can be had. */
  predicate Registers(before: seq<Event>, after: seq<Event>, client: Id, wanted: bool, rc: int) {
    var n, k := |before|, |before| + if wanted then 1 else 0;
    && before <= after && k < |after| && after[k].cmd == Register(client) && after[k].reply.rc == rc
    && (wanted ==> after[n].cmd == Login(Admin))
    && if wanted && after[n].reply.rc == NOERROR then |after| == k + 2 && after[k + 1].cmd == Logout(Admin)
       else |after| == k + 1
  }

  predicate EndsInUpdate(log: seq<Event>) {
    var n := |log|;
    && n >= 2 && log[n - 2].cmd == Clock && log[n - 1].cmd == UpdateTime(log[n - 2].reply.num)
    && log[n - 1].reply.rc == NOERROR
  }

  /** The log ends in a transaction call with this response that worked. */
  predicate EndsInTx(log: seq<Event>, response: Handle)
    requires |log| > 0
  {
    var e := log[|log| - 1];
    (e.cmd.TxStart? || e.cmd.TxFinish?) && e.cmd.response == response && e.reply.rc == NOERROR
  }

  /** The log ends in reading and freeing the response of the transaction call before it, which worked. */
  predicate EndsServed(log: seq<Event>) {
    var n := |log|;
    && n >= 3 && (log[n - 3].cmd.TxStart? || log[n - 3].cmd.TxFinish?) && log[n - 3].reply.rc == NOERROR
    && log[n - 2].cmd == ResponseRead(log[n - 3].cmd.response)
    && log[n - 1].cmd == ResponseFree(log[n - 3].cmd.response)
  }

  lemma ServedTail(a: seq<Event>, b: seq<Event>, c: seq<Event>)
    requires |a| > 0 && |b| > 0 && |c| > 0 && b[..|b| - 1] == a && c[..|c| - 1] == b
    requires (a[|a| - 1].cmd.TxStart? || a[|a| - 1].cmd.TxFinish?) && a[|a| - 1].reply.rc == NOERROR
    requires b[|b| - 1].cmd == ResponseRead(a[|a| - 1].cmd.response)
    requires c[|c| - 1].cmd == ResponseFree(a[|a| - 1].cmd.response)
    ensures EndsServed(c) && c[|c| - 3] == a[|a| - 1]
  {
    assert c[|c| - 2] == b[|b| - 1] && c[|c| - 3] == b[|b| - 2] == a[|a| - 1];
  }

  /** That call was a start for this client, and the device gave this number. */
  predicate StartServed(log: seq<Event>, client: Id, number: nat) {
    && EndsServed(log)
    && var e := log[|log| - 3]; e.cmd.TxStart? && e.cmd.client == client && e.reply.num == number
  }

  /** That call was a finish of this number for this client. */
  predicate FinishServed(log: seq<Event>, client: Id, number: nat) {
    && EndsServed(log)
    && var c := log[|log| - 3].cmd; c.TxFinish? && c.client == client && c.number == number
  }

  datatype Tx = Tx(number: nat, client: Id, finished: bool)

  /** What an operation's transaction calls look like: at most two, the second only after an error
      that recovery can cure; success is the success of the last one. */
  predicate OnceMore(before: seq<int>, after: seq<int>, success: bool) {
    && before <= after
    && |after| - |before| <= 2
    && (|after| - |before| == 2 ==> Recoverable(after[|before|]))
    && (success <==> after != before && after[|after| - 1] == NOERROR)
  }

  /** strncpy or strlcpy into a 256-byte field. */
  function Clip(id: Id): (r: Id)
    ensures r <= id && |r| < 256 && (r == id || |r| == 255)
  {
    if |id| <= 255 then id else id[..255]
  }

  /** The cache once a client has been marked. */
  function Marked(cache: seq<Id>, client: Id): (r: seq<Id>)
    ensures cache <= r && |r| <= |cache| + 1
  {
    if client in cache || |cache| >= CACHE_MAX then cache else cache + [Clip(client)]
  }

  /** Some client is there for runSelfTest to use, or can be put there. */
  predicate SelfTestPossible(d: Tse, known: Id, startup: Id) {
    || (if known != [] then known in d.registered else startup in d.registered)
    || (startup !in d.registered && |d.registered| < d.slots)
  }

  /** The requesting client is on the device, or ensure_client_registered will put it there. */
  predicate ClientUsable(d: Tse, cache: seq<Id>, client: Id) {
    SafeId(client) in d.registered || (client != [] && client !in cache && |d.registered| < d.slots)
  }

  /** The registered clients once a self-test has been run. */
  function Retested(d: Tse, known: Id, startup: Id): set<Id> {
    if known != [] && known in d.registered then d.registered else d.registered + {startup}
  }

  /** The registered clients once a self-test has been run where it is due. */
  function Refreshed(d: Tse, known: Id, startup: Id): set<Id> {
    if d.tested then d.registered else Retested(d, known, startup)
  }

  /** The requesting client is usable, or is the one that a due self-test will register. */
  predicate ClientServed(d: Tse, known: Id, cache: seq<Id>, client: Id, startup: Id) {
    || ClientUsable(d, cache, client)
    || SafeId(client) in Refreshed(d, known, startup)
  }

  predicate SameCounts(a: Monitor, b: Monitor) {
    a.wrongPins == b.wrongPins && a.timeLogins == b.timeLogins && a.updates == b.updates && a.tx == b.tx
  }

  /** One transaction call and no self-test, TimeAdmin login or updateTime. */
  predicate OneCall(a: Monitor, b: Monitor) {
    && b.wrongPins == a.wrongPins && b.timeLogins == a.timeLogins && b.updates == a.updates && b.tests == a.tests
    && |b.tx| == |a.tx| + 1
  }

  predicate SameTallies(a: Monitor, b: Monitor) {
    SameCounts(a, b) && a.polled == b.polled && a.tests == b.tests
  }

  predicate SameBooks(a: Tse, b: Tse) {
    && a.open == b.open && a.used == b.used && a.slots == b.slots && a.maxOpen == b.maxOpen
    && a.window == b.window && a.testDropsTime == b.testDropsTime && a.honest == b.honest && a.lenient == b.lenient
  }

  /** The transactions of b are those of a and the new number n. */
  predicate Opened(a: Tse, b: Tse, n: nat) {
    n !in a.used && b.open == a.open + {n} && b.used == a.used + {n}
  }

  predicate SameTransactions(a: Tse, b: Tse) {
    a.open == b.open && a.used == b.used
  }

  predicate SameLimits(a: Tse, b: Tse) {
    && a.slots == b.slots && a.maxOpen == b.maxOpen && a.window == b.window && a.testDropsTime == b.testDropsTime
    && a.honest == b.honest && a.lenient == b.lenient
  }

  /** From a to b only the self-test flag, the clock and the startup client's registration may
      have moved. */
  predicate Drifts(a: Tse, b: Tse, startup: Id) {
    && SameBooks(a, b)
    && a.registered <= b.registered <= a.registered + {startup}
    && (a.tested ==> b.tested)
  }

  lemma DriftsOn(a: Tse, b: Tse, c: Tse, startup: Id)
    ensures Drifts(a, a, startup)
    ensures Drifts(a, b, startup) && Drifts(b, c, startup) ==> Drifts(a, c, startup)
  {
  }

  /** The instants at which the polls ran the daily self-test. */
  function Fired(polls: seq<Instant>, reports: seq<Report>): seq<Instant>
    requires |polls| == |reports|
  {
    var k := |polls| - 1;
    if polls == [] then []
    else Fired(polls[..k], reports[..k]) + if reports[k].fired then [polls[k]] else []
  }

  /** The firings of the polls so far and of those to come are the ones of Fires. */
  predicate FiresSoFar(polls: seq<Instant>, reports: seq<Report>, day: nat, first: nat, slot: nat) {
    && |reports| <= |polls|
    && Fired(polls[..|reports|], reports) + Fires(day, polls[|reports|..], slot) == Fires(first, polls, slot)
  }

  lemma FiresAtFirst(polls: seq<Instant>, first: nat, slot: nat)
    ensures FiresSoFar(polls, [], first, first, slot)
  {
    assert polls[0..] == polls;
  }

  /** One more poll, which fires as FiresNow says. */
  lemma FiresNext(polls: seq<Instant>, reports: seq<Report>, p: Report, day: nat, first: nat, slot: nat)
    requires FiresSoFar(polls, reports, day, first, slot) && |reports| < |polls|
    requires p.fired == FiresNow(day, polls[|reports|], slot)
    ensures FiresSoFar(polls, reports + [p], if p.fired then polls[|reports|].day else day, first, slot)
  {
    var k := |reports|;
    assert polls[..k + 1][..k] == polls[..k] && (reports + [p])[..k] == reports;
    assert polls[k..][1..] == polls[k + 1..];
  }

  lemma FiresAtLast(polls: seq<Instant>, reports: seq<Report>, day: nat, first: nat, slot: nat)
    requires FiresSoFar(polls, reports, day, first, slot) && |reports| == |polls|
    ensures Fired(polls, reports) == Fires(first, polls, slot)
  {
    assert polls[..|polls|] == polls;
  }

  class Worm {
    const answers: nat -> Reply
    const api: Api
    const active: bool          // g_active
    const adminPin: string
    const timeAdminPin: string
    const slot: Option<(nat, nat)>   // self_test_at_hour and self_test_at_minute
    const startup: Id           // "cloudtse-startup"
    ghost const tse: Tse        // the device the log is replayed on

    var log: seq<Event>
    var known: Id               // the setting worm_known_client; [] when unset
    var cache: seq<Id>          // g_registered_clients
    var lastSync: nat           // g_last_time_sync
    var lastScheduledDay: nat   // last_scheduled_self_test_day, 0 for never
    ghost var mon: Monitor
    ghost var sound: bool       // whether the replies so far are ones this device could give
    ghost var dev: Tse

    ghost predicate Valid()
      reads this
    {
      && mon == Scan(log)
      && Replay(tse, log) == (if sound then Some(dev) else None)
      && |cache| <= CACHE_MAX
      && startup != []
      && forall h :: h in mon.live ==> 0 < h <= |log|
    }

    /** This thread holds g_worm_mu, outside any session, and nothing has gone wrong. */
    ghost predicate InCharge()
      reads this
    {
      Valid() && mon.ok && mon.locked && mon.session == None
    }

    /** The device is a strict one, all symbols are there and the PIN is set. */
    ghost predicate Healthy()
      reads this
    {
      sound && !dev.lenient && api == FULL_API && timeAdminPin != ""
    }

    /** perform_time_sync does more than ask for the time flag. */
    predicate CanSync() {
      timeAdminPin != "" && api.login && api.updateTime && api.logout
    }

    constructor (answers: nat -> Reply, api: Api, active: bool, adminPin: string, timeAdminPin: string,
                 known: Id, cache: seq<Id>, lastSync: nat, slot: Option<(nat, nat)>, lastScheduledDay: nat,
                 ghost tse: Tse)
      requires |cache| <= CACHE_MAX
      ensures Valid() && AtRest(mon) && sound && dev == tse && log == []
      ensures this.answers == answers && this.api == api && this.active == active && this.tse == tse
      ensures this.adminPin == adminPin && this.timeAdminPin == timeAdminPin
      ensures this.known == known && this.cache == cache && this.lastSync == lastSync
      ensures startup == STARTUP && this.slot == slot && this.lastScheduledDay == lastScheduledDay
    {
      this.answers, this.api, this.active := answers, api, active;
      this.adminPin, this.timeAdminPin := adminPin, timeAdminPin;
      this.known, this.cache, this.lastSync := known, cache, lastSync;
      this.tse, this.startup, this.slot := tse, STARTUP, slot;
      this.lastScheduledDay := lastScheduledDay;
      log, mon, sound, dev := [], QUIET, true, tse;
    }

    /** One call into libWormAPI. */
    method Call(c: Cmd) returns (r: Reply)
      requires Valid()
      modifies this`log, this`mon, this`sound, this`dev
      ensures Valid()
      ensures r == answers(|old(log)|) && log == old(log) + [Event(c, r)]
      ensures mon == Watch(old(mon), |old(log)|, Event(c, r))
      ensures sound == (old(sound) && Step(old(dev), Event(c, r)).Some?)
      ensures sound ==> dev == Step(old(dev), Event(c, r)).value
    {
      r := answers(|log|);
      var e := Event(c, r);
      ScanNext(log, e);
      ReplayNext(tse, log, e);
      WatchKeepsHandlesYoung(mon, |log|, e);
      mon := Watch(mon, |log|, e);
      ghost var next := Step(dev, e);
      sound := sound && next.Some?;
      if sound { dev := next.value; }
      log := log + [e];
    }

    /** worm_user_login_call */
    method LoginCall(user: User) returns (rc: int)
      requires InCharge()
      modifies this`log, this`mon, this`sound, this`dev
      ensures Valid()
      ensures mon.ok && mon.locked && mon.live == old(mon.live) && mon.tx == old(mon.tx)
      ensures mon.updates == old(mon.updates) && mon.polled == old(mon.polled) && mon.tests == old(mon.tests)
      ensures mon.session == if rc == NOERROR then Some(user) else None
      ensures mon.timeLogins == old(mon.timeLogins) + if user == TimeAdmin then 1 else 0
      ensures mon.wrongPins ==
              old(mon.wrongPins) + if user == TimeAdmin && rc == AUTHENTICATION_FAILED then 1 else 0
      ensures sound ==> old(sound) && dev == old(dev)
      ensures sound && !dev.lenient && user == TimeAdmin ==>
                if dev.tested then rc == NOERROR else NeedsSelfTest(rc)
      ensures log == old(log) + [Event(Login(user), log[|log| - 1].reply)] && log[|log| - 1].reply.rc == rc
    {
      var r := Call(Login(user));
      rc := r.rc;
    }

    /** worm_user_logout_call */
    method LogoutCall(user: User)
      requires Valid() && mon.ok && mon.locked && mon.session == Some(user)
      modifies this`log, this`mon, this`sound, this`dev
      ensures InCharge()
      ensures mon.live == old(mon.live) && SameTallies(old(mon), mon)
      ensures sound ==> old(sound) && dev == old(dev)
      ensures |log| > 0 && log[|log| - 1].cmd == Logout(user)
      ensures log[..|log| - 1] == old(log)
    {
      var _ := Call(Logout(user));
    }

    /** worm_tse_runSelfTest */
    method SelfTestCall(client: Id) returns (rc: int)
      requires InCharge()
      modifies this`log, this`mon, this`sound, this`dev
      ensures InCharge()
      ensures SameCounts(old(mon), mon) && mon.polled == old(mon.polled) && mon.live == old(mon.live)
      ensures mon.tests == old(mon.tests) + 1
      ensures sound ==> old(sound)
      ensures sound && rc != NOERROR ==> dev == old(dev)
      ensures sound && rc == NOERROR ==>
                && SameBooks(old(dev), dev) && dev.registered == old(dev).registered
                && dev.tested
                && dev.timeValid == (old(dev).timeValid && !dev.testDropsTime)
      ensures sound && !dev.lenient ==> (rc == NOERROR <==> client in dev.registered)
    {
      var r := Call(SelfTest(client));
      rc := r.rc;
    }

    /** time(NULL) followed by worm_tse_updateTime */
    method UpdateTimeCall() returns (rc: int)
      requires Valid() && mon.ok && mon.locked && mon.session == Some(TimeAdmin)
      modifies this`log, this`mon, this`sound, this`dev
      ensures Valid()
      ensures mon.ok && mon.locked && mon.session == Some(TimeAdmin)
      ensures mon.live == old(mon.live) && mon.tx == old(mon.tx) && mon.updates == old(mon.updates) + 1
      ensures mon.wrongPins == old(mon.wrongPins) && mon.timeLogins == old(mon.timeLogins)
      ensures mon.polled == old(mon.polled) && mon.tests == old(mon.tests)
      ensures sound ==> old(sound)
      ensures sound && rc != NOERROR ==> dev == old(dev)
      ensures sound && rc == NOERROR ==>
                && SameBooks(old(dev), dev) && dev.registered == old(dev).registered
                && dev.tested == old(dev).tested && dev.timeValid
      ensures sound && !dev.lenient ==> if dev.tested then rc == NOERROR else NeedsSelfTest(rc)
      ensures rc == NOERROR ==> EndsInUpdate(log)
    {
      var now := Call(Clock);
      var r := Call(UpdateTime(now.num));
      rc := r.rc;
    }

    method ReadClock() returns (now: nat)
      requires Valid()
      modifies this`log, this`mon, this`sound, this`dev
      ensures Valid()
      ensures sound == old(sound) && (sound ==> dev == old(dev))
      ensures mon.ok == old(mon.ok) && mon.locked == old(mon.locked) && mon.session == old(mon.session)
      ensures mon.live == old(mon.live) && SameCounts(old(mon), mon) && mon.asked == old(mon.asked)
      ensures mon.tests == old(mon.tests)
      ensures mon.polled == if mon.session == None then Some(Polled(mon.asked, now)) else old(mon.polled)
      ensures |log| > 0 && log[|log| - 1].cmd == Clock && log[|log| - 1].reply.num == now
      ensures log[..|log| - 1] == old(log)
    {
      var r := Call(Clock);
      now := r.num;
    }

    /** A new handle, 0 if libWormAPI gave none. */
    method NewHandle(c: Cmd) returns (h: Handle)
      requires InCharge() && (c == InfoNew || c == ResponseNew)
      modifies this`log, this`mon, this`sound, this`dev
      ensures InCharge()
      ensures SameTallies(old(mon), mon) && mon.asked == old(mon.asked)
      ensures h !in old(mon.live) && mon.live == if h == 0 then old(mon.live) else old(mon.live) + {h}
      ensures sound ==> old(sound) && dev == old(dev)
      ensures sound && c == InfoNew && dev.honest ==> h != 0
      ensures sound && c == ResponseNew && !dev.lenient ==> h != 0
    {
      var r := Call(c);
      h := HandleOf(|log| - 1, r);
    }

    method FreeHandle(c: Cmd, h: Handle)
      requires InCharge() && h in mon.live && (c == InfoFree(h) || c == ResponseFree(h))
      modifies this`log, this`mon, this`sound, this`dev
      ensures InCharge()
      ensures SameTallies(old(mon), mon) && mon.live == old(mon.live) - {h} && mon.asked == old(mon.asked)
      ensures sound ==> old(sound) && dev == old(dev)
      ensures |log| > 0 && log[..|log| - 1] == old(log) && log[|log| - 1].cmd == c
    {
      var _ := Call(c);
    }

    /** worm_info_read */
    method ReadBlock(info: Handle) returns (ok: bool)
      requires InCharge() && info in mon.live
      modifies this`log, this`mon, this`sound, this`dev
      ensures InCharge()
      ensures SameTallies(old(mon), mon) && mon.live == old(mon.live) && mon.asked == old(mon.asked)
      ensures sound ==> old(sound) && dev == old(dev)
      ensures sound && dev.honest ==> ok
    {
      var r := Call(InfoRead(info));
      ok := r.rc == NOERROR;
    }

    /** One of the worm_info getters. */
    method GetField(info: Handle, f: Field) returns (v: nat)
      requires InCharge() && info in mon.live
      modifies this`log, this`mon, this`sound, this`dev
      ensures InCharge()
      ensures SameTallies(old(mon), mon) && mon.live == old(mon.live) && mon.asked == Put(old(mon).asked, f, v)
      ensures sound ==> old(sound) && dev == old(dev)
      ensures sound && dev.honest ==> InfoAnswer(dev, f, Reply(NOERROR, v))
    {
      var r := Call(InfoGet(info, f));
      v := r.num;
    }

    /** info_new, info_read, one getter, info_free; None when the block could not be read. */
    method ReadInfo(f: Field) returns (v: Option<nat>)
      requires InCharge()
      modifies this`log, this`mon, this`sound, this`dev
      ensures InCharge()
      ensures SameTallies(old(mon), mon) && mon.live == old(mon.live)
      ensures sound ==> old(sound) && dev == old(dev)
      ensures sound && dev.honest ==> v.Some? && InfoAnswer(dev, f, Reply(NOERROR, v.value))
      ensures mon.asked == if v.Some? then Put(old(mon).asked, f, v.value) else old(mon.asked)
    {
      hide Scan, Replay, Watch, Step;
      v := None;
      var info := NewHandle(InfoNew);
      if info != 0 {
        var ok := ReadBlock(info);
        if ok {
          var n := GetField(info, f);
          v := Some(n);
        }
        FreeHandle(InfoFree(info), info);
      }
      assert mon.live == old(mon.live);
    }

    method HasPassedSelfTest() returns (passed: bool)
      requires InCharge()
      modifies this`log, this`mon, this`sound, this`dev
      ensures InCharge()
      ensures SameTallies(old(mon), mon) && mon.live == old(mon.live)
      ensures sound ==> old(sound) && dev == old(dev)
      ensures sound && dev.honest && api.hasPassedSelfTest ==> passed == dev.tested
      ensures passed ==> mon.asked.passed.Some? && mon.asked.passed.value != 0
    {
      passed := false;
      if api.hasPassedSelfTest {
        var v := ReadInfo(Field.HasPassedSelfTest);
        if v.Some? { passed := v.value != 0; }
      }
    }

    method HasValidTime() returns (valid: bool)
      requires InCharge()
      modifies this`log, this`mon, this`sound, this`dev
      ensures InCharge()
      ensures SameTallies(old(mon), mon) && mon.live == old(mon.live)
      ensures sound ==> old(sound) && dev == old(dev)
      ensures sound && dev.honest && api.hasValidTime ==> valid == dev.timeValid
      ensures !valid ==> mon.asked.valid == Some(0)
    {
      valid := true;
      if api.hasValidTime {
        var v := ReadInfo(Field.HasValidTime);
        if v.Some? { valid := v.value != 0; }
      }
    }

    method MarkRegistered(client: Id)
      requires Valid()
      modifies this`cache
      ensures Valid()
      ensures cache == Marked(old(cache), client)
      ensures client !in old(cache) && |old(cache)| < 64 ==> |cache| == |old(cache)| + 1
      ensures client in old(cache) || |old(cache)| == 64 ==> cache == old(cache)
      ensures |client| <= 255 && |old(cache)| < CACHE_MAX ==> client in cache
    {
      if client in cache { return; }
      if |cache| < CACHE_MAX {
        cache := cache + [Clip(client)];
      }
    }

    /** worm_tse_registerClient */
    method RegisterCall(client: Id) returns (rc: int)
      requires Valid() && mon.ok && mon.locked
      modifies this`log, this`mon, this`sound, this`dev
      ensures Valid() && mon.ok && mon.locked && mon.session == old(mon.session)
      ensures SameTallies(old(mon), mon) && mon.live == old(mon.live)
      ensures log == old(log) + [Event(Register(client), log[|log| - 1].reply)] && log[|log| - 1].reply.rc == rc
      ensures sound ==> old(sound)
      ensures sound && rc != NOERROR ==> dev == old(dev)
      ensures sound && rc == NOERROR ==>
                && SameBooks(old(dev), dev)
                && dev.registered == old(dev).registered + {client}
                && dev.tested == old(dev).tested && dev.timeValid == old(dev).timeValid
      ensures sound && !dev.lenient ==>
                (rc == NOERROR <==> client !in old(dev).registered
                                    && |old(dev).registered| < dev.slots)
    {
      var r := Call(Register(client));
      rc := r.rc;
    }

    /** registerClient inside an Admin session when an Admin PIN is configured. */
    method RegisterInSession(client: Id) returns (rc: int)
      requires InCharge()
      modifies this`log, this`mon, this`sound, this`dev
      ensures InCharge()
      ensures SameTallies(old(mon), mon) && mon.live == old(mon.live)
      ensures sound ==> old(sound)
      ensures sound && rc != NOERROR ==> dev == old(dev)
      ensures sound && rc == NOERROR ==>
                && SameBooks(old(dev), dev)
                && dev.registered == old(dev).registered + {client}
                && dev.tested == old(dev).tested && dev.timeValid == old(dev).timeValid
      ensures sound && !dev.lenient ==>
                (rc == NOERROR <==> client !in old(dev).registered
                                    && |old(dev).registered| < dev.slots)
      ensures Registers(old(log), log, client, adminPin != "" && api.login && api.logout, rc)
    {
      hide Scan, Replay, Watch, Step;
      var loggedIn := false;
      if adminPin != "" && api.login && api.logout {
        var login := LoginCall(Admin);
        loggedIn := login == NOERROR;
      }
      rc := RegisterCall(client);
      if loggedIn {
        LogoutCall(Admin);
      }
    }

    /** The second attempt of ensure_self_test_passed: register a client of our own and test with it. */
    method RetestAsStartup()
      requires InCharge()
      modifies this`log, this`mon, this`sound, this`dev, this`known, this`cache
      ensures InCharge()
      ensures SameCounts(old(mon), mon) && mon.polled == old(mon.polled) && mon.live == old(mon.live)
      ensures old(mon.tests) <= mon.tests <= old(mon.tests) + 1
      ensures sound ==> old(sound) && Drifts(old(dev), dev, startup)
      ensures sound && !dev.testDropsTime ==> dev.timeValid == old(dev).timeValid
      ensures sound && dev.timeValid ==> old(dev).timeValid
      ensures Healthy() && startup !in old(dev).registered && |old(dev).registered| < dev.slots ==>
                && dev.tested && known == startup && startup in dev.registered
                && (|startup| < 256 && |old(cache)| < CACHE_MAX ==> startup in cache)
    {
      hide Scan, Replay, Watch, Step;
      if api.register {
        var rc := RegisterInSession(startup);
        if rc == NOERROR {
          rc := SelfTestCall(startup);
          if rc == NOERROR {
            known := startup;
            MarkRegistered(startup);
          }
        }
      }
    }

    /** ensure_self_test_passed behind the look at the flag: the known client first, then our own. */
    method RunSelfTest()
      requires InCharge()
      modifies this`log, this`mon, this`sound, this`dev, this`known, this`cache
      ensures InCharge()
      ensures SameCounts(old(mon), mon) && mon.polled == old(mon.polled) && mon.live == old(mon.live)
      ensures old(mon.tests) < mon.tests <= old(mon.tests) + 2
      ensures sound ==> old(sound) && Drifts(old(dev), dev, startup)
      ensures sound && !dev.testDropsTime ==> dev.timeValid == old(dev).timeValid
      ensures sound && dev.timeValid ==> old(dev).timeValid
      ensures Healthy() && SelfTestPossible(old(dev), old(known), startup) ==>
                && SelfTestPossible(dev, known, startup) && dev.tested
                && dev.registered == Retested(old(dev), old(known), startup)
                && known == (if old(known) != [] && old(known) in old(dev).registered then old(known) else startup)
    {
      hide Scan, Replay, Watch, Step;
      var candidate := if known != [] then known else startup;
      var rc := SelfTestCall(candidate);
      if rc == NOERROR {
        known := candidate;
        return;
      }
      RetestAsStartup();
    }

    /** ensure_self_test_passed */
    method EnsureSelfTestPassed(force: bool)
      requires InCharge()
      modifies this`log, this`mon, this`sound, this`dev, this`known, this`cache
      ensures InCharge()
      ensures SameCounts(old(mon), mon) && mon.polled == old(mon.polled) && mon.live == old(mon.live)
      ensures old(mon.tests) <= mon.tests <= old(mon.tests) + 2
      ensures force && api.selfTest ==> mon.tests > old(mon.tests)
      ensures sound ==> old(sound) && Drifts(old(dev), dev, startup)
      ensures sound && !dev.testDropsTime ==> dev.timeValid == old(dev).timeValid
      ensures sound && dev.timeValid ==> old(dev).timeValid
      ensures Healthy() && SelfTestPossible(old(dev), old(known), startup) ==>
                && SelfTestPossible(dev, known, startup)
                && (force || dev.honest ==> dev.tested)
                && (force ==> dev.registered == Retested(old(dev), old(known), startup))
                && (force ==> known == if old(known) != [] && old(known) in old(dev).registered then old(known)
                                       else startup)
                && (!force && dev.honest ==> dev.registered == Refreshed(old(dev), old(known), startup))
      ensures Healthy() && dev.honest && old(dev).tested && !force ==> mon.tests == old(mon.tests)
    {
      hide Scan, Replay, Watch, Step, Retested;
      if !api.selfTest { return; }
      if !force {
        var passed := HasPassedSelfTest();
        if passed { return; }
      }
      RunSelfTest();
    }

    /** The TimeAdmin login of perform_time_sync, repeated once behind a forced self-test. */
    method LoginForSync() returns (rc: int)
      requires InCharge()
      modifies this`log, this`mon, this`sound, this`dev, this`known, this`cache
      ensures Valid() && mon.ok && mon.locked
      ensures mon.session == if rc == NOERROR then Some(TimeAdmin) else None
      ensures mon.live == old(mon.live) && mon.tx == old(mon.tx) && mon.updates == old(mon.updates)
      ensures mon.polled == old(mon.polled)
      ensures old(mon.timeLogins) < mon.timeLogins <= old(mon.timeLogins) + 2
      ensures mon.timeLogins == old(mon.timeLogins) + 1 ==> !NeedsSelfTest(rc)
      ensures mon.wrongPins <= old(mon.wrongPins) + if rc == NOERROR then 0 else 1
      ensures sound ==> old(sound) && Drifts(old(dev), dev, startup)
      ensures Healthy() && SelfTestPossible(old(dev), old(known), startup) ==>
                rc == NOERROR && dev.tested && SelfTestPossible(dev, known, startup)
      ensures Healthy() && SelfTestPossible(old(dev), old(known), startup) && old(dev).tested && dev.honest ==>
                dev.registered == old(dev).registered && mon.tests == old(mon.tests)
      ensures Healthy() && SelfTestPossible(old(dev), old(known), startup) && dev.honest ==>
                mon.timeLogins == old(mon.timeLogins) + 1
      ensures mon.tests >= old(mon.tests)
    {
      hide Scan, Replay, Watch, Step;
      EnsureSelfTestPassed(false);
      rc := LoginCall(TimeAdmin);
      if NeedsSelfTest(rc) {
        EnsureSelfTestPassed(true);
        rc := LoginCall(TimeAdmin);
      }
    }

    /** updateTime in an open TimeAdmin session, repeated once behind a forced self-test in a new
        session; inSession tells whether a session is still open. */
    method UpdateInSession() returns (rc: int, inSession: bool)
      requires Valid() && mon.ok && mon.locked && mon.session == Some(TimeAdmin)
      modifies this`log, this`mon, this`sound, this`dev, this`known, this`cache
      ensures Valid() && mon.ok && mon.locked
      ensures mon.session == if inSession then Some(TimeAdmin) else None
      ensures mon.live == old(mon.live) && mon.tx == old(mon.tx) && mon.polled == old(mon.polled)
      ensures old(mon.updates) < mon.updates <= old(mon.updates) + 2
      ensures mon.updates == old(mon.updates) + 1 ==>
                if NeedsSelfTest(rc) then mon.timeLogins == old(mon.timeLogins) + 1 && !inSession
                else mon.timeLogins == old(mon.timeLogins)
      ensures mon.timeLogins <= old(mon.timeLogins) + 1
      ensures mon.wrongPins <= old(mon.wrongPins) + if inSession then 0 else 1
      ensures sound ==> old(sound) && Drifts(old(dev), dev, startup)
      ensures sound && rc == NOERROR && inSession ==> dev.timeValid
      ensures rc == NOERROR && inSession ==> EndsInUpdate(log)
      ensures Healthy() && old(dev).tested ==>
                && rc == NOERROR && inSession && known == old(known) && dev.registered == old(dev).registered
                && mon.tests == old(mon.tests)
      ensures Healthy() && SelfTestPossible(old(dev), old(known), startup) ==> rc == NOERROR && inSession
      ensures mon.tests >= old(mon.tests)
    {
      hide Scan, Replay, Watch, Step, EndsInUpdate;
      inSession := true;
      rc := UpdateTimeCall();
      if NeedsSelfTest(rc) {
        LogoutCall(TimeAdmin);
        EnsureSelfTestPassed(true);
        var login := LoginCall(TimeAdmin);
        if login != NOERROR {
          return rc, false;
        }
        rc := UpdateTimeCall();
      }
    }

    /** The end of perform_time_sync: note a successful sync and log out. */
    method CloseSync(update: int) returns (ok: bool)
      requires Valid() && mon.ok && mon.locked && mon.session == Some(TimeAdmin)
      modifies this`log, this`mon, this`sound, this`dev, this`lastSync
      ensures InCharge()
      ensures SameTallies(old(mon), mon) && mon.live == old(mon.live)
      ensures sound ==> old(sound) && dev == old(dev)
      ensures ok == (update == NOERROR)
      ensures !ok ==> lastSync == old(lastSync)
      ensures ok && EndsInUpdate(old(log)) ==> EndsInSync(log, lastSync)
    {
      hide Scan, Replay, Watch, Step;
      ok := update == NOERROR;
      if ok {
        lastSync := ReadClock();
      }
      LogoutCall(TimeAdmin);
    }

    /** perform_time_sync; true if the TSE clock is known to be valid. */
    method PerformTimeSync() returns (ok: bool)
      requires InCharge()
      modifies this`log, this`mon, this`sound, this`dev, this`known, this`cache, this`lastSync
      ensures InCharge()
      ensures mon.live == old(mon.live) && mon.tx == old(mon.tx) && mon.polled == old(mon.polled)
      ensures mon.wrongPins <= old(mon.wrongPins) + if ok then 0 else 1
      ensures mon.timeLogins <= old(mon.timeLogins) + 3
      ensures mon.updates <= old(mon.updates) + 2
      ensures sound ==> old(sound) && Drifts(old(dev), dev, startup)
      ensures sound && ok && api == FULL_API && timeAdminPin != "" ==> dev.timeValid
      ensures Healthy() && SelfTestPossible(old(dev), old(known), startup) ==>
                ok && SelfTestPossible(dev, known, startup) && dev.tested && dev.timeValid
      ensures Healthy() && SelfTestPossible(old(dev), old(known), startup) && old(dev).tested && dev.honest ==>
                dev.registered == old(dev).registered && mon.tests == old(mon.tests)
      ensures if ok && CanSync() then EndsInSync(log, lastSync) else lastSync == old(lastSync)
      ensures !CanSync() ==> SameTallies(old(mon), mon)
      ensures !CanSync() && sound && dev.honest && api.hasValidTime ==> ok == dev.timeValid
      ensures mon.tests >= old(mon.tests)
    {
      hide Scan, Replay, Watch, Step, EndsInUpdate, EndsInSync;
      if timeAdminPin == "" {
        ok := HasValidTime();
        return;
      }
      if !api.login || !api.updateTime || !api.logout {
        ok := HasValidTime();
        return;
      }
      var login := LoginForSync();
      if login != NOERROR {
        return false;
      }
      var update, inSession := UpdateInSession();
      if !inSession {
        return false;
      }
      ok := CloseSync(update);
    }

    /** recover_after_worm_error; true if the failed operation should be tried again. */
    method RecoverAfter(rc: int) returns (retry: bool)
      requires InCharge()
      modifies this`log, this`mon, this`sound, this`dev, this`known, this`cache, this`lastSync
      ensures InCharge()
      ensures retry == Recoverable(rc)
      ensures !retry ==>
                log == old(log) && mon == old(mon) && sound == old(sound) && dev == old(dev) && known == old(known)
      ensures mon.live == old(mon.live) && mon.tx == old(mon.tx)
      ensures mon.wrongPins <= old(mon.wrongPins) + 1
      ensures mon.timeLogins <= old(mon.timeLogins) + 3
      ensures mon.updates <= old(mon.updates) + 2
      ensures sound ==> old(sound) && Drifts(old(dev), dev, startup)
      ensures Healthy() && SelfTestPossible(old(dev), old(known), startup) ==>
                && SelfTestPossible(dev, known, startup)
                && (retry ==> dev.tested && dev.timeValid)
      ensures Healthy() && SelfTestPossible(old(dev), old(known), startup) && dev.honest && old(dev).tested
              && !NeedsSelfTest(rc) ==>
                mon.tests == old(mon.tests)
    {
      if NeedsSelfTest(rc) {
        EnsureSelfTestPassed(true);
        var _ := PerformTimeSync();
        return true;
      }
      if rc == NO_TIME_SET {
        var _ := PerformTimeSync();
        return true;
      }
      retry := false;
    }

    method AcquireLock()
      requires Valid() && AtRest(mon)
      modifies this`log, this`mon, this`sound, this`dev
      ensures InCharge() && mon.live == {} && SameTallies(old(mon), mon) && mon.asked == SILENCE
      ensures sound ==> old(sound) && dev == old(dev)
      ensures |log| > |old(log)|
    {
      var _ := Call(Lock);
    }

    method ReleaseLock()
      requires InCharge() && mon.live == {}
      modifies this`log, this`mon, this`sound, this`dev
      ensures Valid() && AtRest(mon) && SameTallies(old(mon), mon)
      ensures sound ==> old(sound) && dev == old(dev)
      ensures |log| > 0 && log[..|log| - 1] == old(log)
    {
      var _ := Call(Unlock);
    }

    /** tse_worm_register_client */
    method RegisterClient(client: Id) returns (rc: int)
      requires Valid() && AtRest(mon)
      modifies this`log, this`mon, this`sound, this`dev, this`known, this`cache
      ensures Valid() && AtRest(mon) && SameTallies(old(mon), mon)
      ensures rc == 0 || rc == -1
      ensures sound ==> old(sound) && SameBooks(old(dev), dev)
      ensures sound ==> dev.tested == old(dev).tested && dev.timeValid == old(dev).timeValid
      ensures sound && active && api.register ==>
                dev.registered == if rc == 0 then old(dev).registered + {SafeId(client)} else old(dev).registered
      ensures sound && active && api.register && !dev.lenient ==>
                (rc == 0 <==> SafeId(client) !in old(dev).registered && |old(dev).registered| < dev.slots)
      ensures known == if rc == 0 && active && api.register then SafeId(client) else old(known)
      ensures cache == if rc == 0 && active && api.register then Marked(old(cache), client) else old(cache)
    {
      hide Scan, Replay, Watch, Step;
      if !active || !api.register { return 0; }
      var safeId := SafeClientId(client);
      AcquireLock();
      var r := RegisterInSession(safeId);
      ReleaseLock();
      if r == NOERROR {
        MarkRegistered(client);
        known := safeId;
      }
      rc := if r == NOERROR then 0 else -1;
    }

    /** ensure_client_registered */
    method EnsureClientRegistered(client: Id)
      requires Valid() && AtRest(mon)
      modifies this`log, this`mon, this`sound, this`dev, this`known, this`cache
      ensures Valid() && AtRest(mon) && SameTallies(old(mon), mon)
      ensures sound ==> old(sound) && SameBooks(old(dev), dev)
      ensures sound ==> dev.tested == old(dev).tested && dev.timeValid == old(dev).timeValid
      ensures sound && active && api.register && !dev.lenient ==>
                (SafeId(client) in dev.registered <==> ClientUsable(old(dev), old(cache), client))
      ensures sound && active && api.register && SafeId(client) !in dev.registered ==>
                dev.registered == old(dev).registered && known == old(known)
      ensures sound && active && api.register && SelfTestPossible(old(dev), old(known), startup) ==>
                SelfTestPossible(dev, known, startup)
      ensures client != [] && |client| <= 255 && |old(cache)| < CACHE_MAX - 1 ==> client in cache
      ensures old(cache) <= cache
    {
      hide Scan, Replay, Watch, Step, Marked, Clip, SafeId;
      if client == [] || client in cache { return; }
      var _ := RegisterClient(client);
      MarkRegistered(client);
    }

    /** The checks that come before every transaction call. */
    method Prepare()
      requires InCharge()
      modifies this`log, this`mon, this`sound, this`dev, this`known, this`cache, this`lastSync
      ensures InCharge()
      ensures mon.live == old(mon.live) && mon.tx == old(mon.tx)
      ensures mon.wrongPins <= old(mon.wrongPins) + 1
      ensures mon.timeLogins <= old(mon.timeLogins) + 3
      ensures mon.updates <= old(mon.updates) + 2
      ensures sound ==> old(sound) && Drifts(old(dev), dev, startup)
      ensures Healthy() && SelfTestPossible(old(dev), old(known), startup) ==>
                && SelfTestPossible(dev, known, startup)
                && (dev.honest ==> dev.tested && dev.timeValid)
                && (dev.honest ==> dev.registered == Refreshed(old(dev), old(known), startup))
      ensures Healthy() && SelfTestPossible(old(dev), old(known), startup) && dev.honest && old(dev).tested ==>
                && mon.tests == old(mon.tests)
                && (old(dev).timeValid ==> SameCounts(old(mon), mon))
    {
      hide Scan, Replay, Watch, Step;
      var passed := HasPassedSelfTest();
      if !passed {
        EnsureSelfTestPassed(false);
      }
      var valid := HasValidTime();
      if !valid {
        var _ := PerformTimeSync();
      }
    }

    /** worm_transaction_start */
    method TxStartCall(client: Id, response: Handle) returns (rc: int, number: nat)
      requires InCharge() && response in mon.live
      modifies this`log, this`mon, this`sound, this`dev
      ensures InCharge()
      ensures mon.live == old(mon.live) && mon.tx == old(mon.tx) + [rc]
      ensures mon.wrongPins == old(mon.wrongPins) && mon.timeLogins == old(mon.timeLogins)
      ensures mon.updates == old(mon.updates) && mon.tests == old(mon.tests)
      ensures sound ==> old(sound) && SameLimits(old(dev), dev) && dev.registered == old(dev).registered
      ensures sound && rc == NOERROR ==> Opened(old(dev), dev, number)
      ensures sound && rc != NOERROR ==> SameTransactions(old(dev), dev)
      ensures sound ==> dev.tested == old(dev).tested && dev.timeValid == old(dev).timeValid
      ensures sound && !dev.lenient ==> (rc == NOERROR <==> CanStart(old(dev), client))
      ensures sound && !dev.lenient && rc != NOERROR ==>
                Refuses(dev, rc, client !in dev.registered || |dev.open| >= dev.maxOpen)
      ensures |log| > 0 && log[|log| - 1] == Event(TxStart(client, response), Reply(rc, number))
    {
      var r := Call(TxStart(client, response));
      rc, number := r.rc, r.num;
    }

    /** worm_transaction_finish */
    method TxFinishCall(client: Id, number: nat, response: Handle) returns (rc: int)
      requires InCharge() && response in mon.live
      modifies this`log, this`mon, this`sound, this`dev
      ensures InCharge()
      ensures mon.live == old(mon.live) && mon.tx == old(mon.tx) + [rc]
      ensures mon.wrongPins == old(mon.wrongPins) && mon.timeLogins == old(mon.timeLogins)
      ensures mon.updates == old(mon.updates) && mon.tests == old(mon.tests)
      ensures sound ==> old(sound) && SameLimits(old(dev), dev) && dev.registered == old(dev).registered
      ensures sound && rc == NOERROR ==>
                number in old(dev).open && dev.open == old(dev).open - {number} && dev.used == old(dev).used
      ensures sound && rc != NOERROR ==> SameTransactions(old(dev), dev)
      ensures sound ==> dev.tested == old(dev).tested && dev.timeValid == old(dev).timeValid
      ensures sound && !dev.lenient ==> (rc == NOERROR <==> CanFinish(old(dev), client, number))
      ensures sound && !dev.lenient && rc != NOERROR ==>
                Refuses(dev, rc, client !in dev.registered || number !in dev.open)
      ensures |log| > 0 && log[|log| - 1].cmd == TxFinish(client, number, response) && log[|log| - 1].reply.rc == rc
    {
      var r := Call(TxFinish(client, number, response));
      rc := r.rc;
    }

    /** fill_tx_from_response */
    method FillTx(response: Handle)
      requires InCharge() && response in mon.live
      modifies this`log, this`mon, this`sound, this`dev
      ensures InCharge()
      ensures mon.live == old(mon.live) && SameTallies(old(mon), mon)
      ensures sound ==> old(sound) && dev == old(dev)
      ensures |log| > 0 && log[..|log| - 1] == old(log) && log[|log| - 1].cmd == ResponseRead(response)
    {
      var _ := Call(ResponseRead(response));
    }

    /** Read the response of a call that worked, and free it in any case. */
    method CloseResponse(response: Handle, worked: bool)
      requires InCharge() && response in mon.live
      requires worked ==> |log| > 0 && EndsInTx(log, response)
      modifies this`log, this`mon, this`sound, this`dev
      ensures InCharge()
      ensures mon.live == old(mon.live) - {response} && SameTallies(old(mon), mon)
      ensures sound ==> old(sound) && dev == old(dev)
      ensures worked ==> EndsServed(log) && log[|log| - 3] == old(log)[|old(log)| - 1]
    {
      hide Scan, Replay, Watch, Step, EndsServed;
      ghost var called := log;
      if worked {
        FillTx(response);
      }
      ghost var filled := log;
      FreeHandle(ResponseFree(response), response);
      if worked {
        ServedTail(called, filled, log);
      }
    }

    /** A fresh response for the second attempt. */
    method RenewResponse(response: Handle) returns (renewed: Handle)
      requires InCharge() && mon.live == {response}
      modifies this`log, this`mon, this`sound, this`dev
      ensures InCharge() && SameTallies(old(mon), mon)
      ensures mon.live == if renewed == 0 then {} else {renewed}
      ensures sound ==> old(sound) && dev == old(dev)
      ensures sound && !dev.lenient ==> renewed != 0
    {
      FreeHandle(ResponseFree(response), response);
      renewed := NewHandle(ResponseNew);
    }

    /** tse_worm_start_transaction: the second attempt, made only after an error that recovery can cure; `last` is the
        response still held, 0 if none. */
    method StartAgain(client: Id, rc0: int, response: Handle) returns (rc: int, number: nat, last: Handle)
      requires InCharge() && mon.live == {response} && response != 0 && rc0 != NOERROR
      modifies this`log, this`mon, this`sound, this`dev, this`known, this`cache, this`lastSync
      ensures InCharge() && mon.live == if last == 0 then {} else {last}
      ensures last == 0 ==> rc != NOERROR
      ensures if rc == NOERROR || mon.tx != old(mon.tx) then mon.tx == old(mon.tx) + [rc] && Recoverable(rc0)
              else mon.tx == old(mon.tx)
      ensures mon.wrongPins <= old(mon.wrongPins) + 1
      ensures mon.timeLogins <= old(mon.timeLogins) + 3
      ensures mon.updates <= old(mon.updates) + 2
      ensures sound ==> old(sound) && SameLimits(old(dev), dev)
                        && old(dev).registered <= dev.registered <= old(dev).registered + {startup}
      ensures sound && rc == NOERROR ==> Opened(old(dev), dev, number)
      ensures sound && rc != NOERROR ==> SameTransactions(old(dev), dev)
      ensures !Recoverable(rc0) ==> mon == old(mon) && (sound ==> dev == old(dev))
      ensures Healthy() && SelfTestPossible(old(dev), old(known), startup) ==>
                (rc == NOERROR <==> Recoverable(rc0) && client in dev.registered && |old(dev).open| < dev.maxOpen)
      ensures rc == NOERROR ==> |log| > 0 && log[|log| - 1] == Event(TxStart(client, last), Reply(rc, number))
    {
      hide Scan, Replay, Watch, Step, Recoverable, SelfTestPossible;
      rc, last := rc0, response;
      number := 0;
      var retry := RecoverAfter(rc0);
      if retry {
        last := RenewResponse(response);
        if last != 0 {
          rc, number := TxStartCall(client, last);
        }
      }
    }

    /** worm_transaction_start, and the second attempt if it fails. */
    method StartUpToTwice(client: Id, response: Handle) returns (rc: int, number: nat, last: Handle)
      requires InCharge() && mon.live == {response} && response != 0
      modifies this`log, this`mon, this`sound, this`dev, this`known, this`cache, this`lastSync
      ensures InCharge() && mon.live == if last == 0 then {} else {last}
      ensures last == 0 ==> rc != NOERROR
      ensures OnceMore(old(mon.tx), mon.tx, rc == NOERROR)
      ensures mon.wrongPins <= old(mon.wrongPins) + 1
      ensures mon.timeLogins <= old(mon.timeLogins) + 3
      ensures mon.updates <= old(mon.updates) + 2
      ensures sound ==> old(sound) && SameLimits(old(dev), dev)
                        && old(dev).registered <= dev.registered <= old(dev).registered + {startup}
      ensures sound && rc == NOERROR ==> Opened(old(dev), dev, number)
      ensures sound && rc != NOERROR ==> SameTransactions(old(dev), dev)
      ensures Healthy() && SelfTestPossible(old(dev), old(known), startup) ==>
                (rc == NOERROR <==> client in dev.registered && |old(dev).open| < dev.maxOpen)
      ensures Healthy() && old(dev).tested && old(dev).timeValid ==>
                && (rc == NOERROR <==> client in old(dev).registered && |old(dev).open| < dev.maxOpen)
                && OneCall(old(mon), mon)
      ensures rc == NOERROR ==> |log| > 0 && log[|log| - 1] == Event(TxStart(client, last), Reply(rc, number))
    {
      rc, number := TxStartCall(client, response);
      last := response;
      if rc != NOERROR {
        rc, number, last := StartAgain(client, rc, response);
      }
    }

    /** The part of tse_worm_start_transaction between lock and unlock that follows the checks. */
    method StartLocked(client: Id) returns (ok: bool, number: nat)
      requires InCharge() && mon.live == {}
      modifies this`log, this`mon, this`sound, this`dev, this`known, this`cache, this`lastSync
      ensures InCharge() && mon.live == {}
      ensures OnceMore(old(mon.tx), mon.tx, ok)
      ensures mon.wrongPins <= old(mon.wrongPins) + 1
      ensures mon.timeLogins <= old(mon.timeLogins) + 3
      ensures mon.updates <= old(mon.updates) + 2
      ensures sound ==> old(sound) && SameLimits(old(dev), dev)
                        && old(dev).registered <= dev.registered <= old(dev).registered + {startup}
      ensures sound && ok ==> Opened(old(dev), dev, number)
      ensures sound && !ok ==> SameTransactions(old(dev), dev)
      ensures Healthy() && SelfTestPossible(old(dev), old(known), startup) ==>
                (ok <==> client in dev.registered && |old(dev).open| < dev.maxOpen)
      ensures Healthy() && old(dev).tested && old(dev).timeValid ==>
                && (ok <==> client in old(dev).registered && |old(dev).open| < dev.maxOpen)
                && OneCall(old(mon), mon)
      ensures ok ==> StartServed(log, client, number)
    {
      hide Scan, Replay, Watch, Step, SelfTestPossible, EndsServed;
      number := 0;
      var response := NewHandle(ResponseNew);
      if response == 0 {
        return false, 0;
      }
      var rc, n, last := StartUpToTwice(client, response);
      if last == 0 {
        return false, 0;
      }
      ok := rc == NOERROR;
      number := if ok then n else 0;
      CloseResponse(last, ok);
    }

    /** tse_worm_start_transaction */
    method StartTransaction(client: Id) returns (rc: int, tx: Tx)
      requires Valid() && AtRest(mon)
      modifies this
      ensures Valid() && AtRest(mon)
      ensures rc == 0 || rc == -1
      ensures !active ==> rc == -1 && log == old(log)
      ensures OnceMore(old(mon.tx), mon.tx, rc == 0)
      ensures mon.wrongPins <= old(mon.wrongPins) + 2
      ensures mon.timeLogins <= old(mon.timeLogins) + 6
      ensures mon.updates <= old(mon.updates) + 4
      ensures sound ==> old(sound) && SameLimits(old(dev), dev)
      ensures rc == 0 ==> |log| > 0 && StartServed(log[..|log| - 1], SafeId(client), tx.number)
      ensures rc == 0 ==> tx.client == Clip(client) && !tx.finished
      ensures sound && rc == 0 ==> Opened(old(dev), dev, tx.number)
      ensures sound && rc != 0 ==> SameTransactions(old(dev), dev)
      ensures active && Healthy() && SelfTestPossible(old(dev), old(known), startup) ==>
                (rc == 0 <==> SafeId(client) in dev.registered && |old(dev).open| < dev.maxOpen)
      ensures active && Healthy() && SelfTestPossible(old(dev), old(known), startup) ==>
                && (ClientUsable(old(dev), old(cache), client) && |old(dev).open| < dev.maxOpen ==> rc == 0)
                && (rc == 0 ==> |old(dev).open| < dev.maxOpen
                                && (ClientUsable(old(dev), old(cache), client) || SafeId(client) == startup))
      ensures active && Healthy() && SelfTestPossible(old(dev), old(known), startup) && dev.honest ==>
                (rc == 0 <==> |old(dev).open| < dev.maxOpen
                              && ClientServed(old(dev), old(known), old(cache), client, startup))
      ensures active && Healthy() && SelfTestPossible(old(dev), old(known), startup) && dev.honest
              && old(dev).tested && old(dev).timeValid ==>
                OneCall(old(mon), mon)
    {
      hide Scan, Replay, Watch, Step, StartServed, Recoverable, Clip;
      tx := Tx(0, [], false);
      if !active { return -1, tx; }
      EnsureClientRegistered(client);
      var safeId := SafeClientId(client);
      AcquireLock();
      Prepare();
      var ok, number := StartLocked(safeId);
      ReleaseLock();
      if !ok { return -1, tx; }
      return 0, Tx(number, Clip(client), false);
    }

    /** tse_worm_finish_transaction: the second attempt, made only after an error that recovery can cure; `last` is the
        response still held, 0 if none. */
    method FinishAgain(client: Id, number: nat, rc0: int, response: Handle) returns (rc: int, last: Handle)
      requires InCharge() && mon.live == {response} && response != 0 && rc0 != NOERROR
      modifies this`log, this`mon, this`sound, this`dev, this`known, this`cache, this`lastSync
      ensures InCharge() && mon.live == if last == 0 then {} else {last}
      ensures last == 0 ==> rc != NOERROR
      ensures if rc == NOERROR || mon.tx != old(mon.tx) then mon.tx == old(mon.tx) + [rc] && Recoverable(rc0)
              else mon.tx == old(mon.tx)
      ensures mon.wrongPins <= old(mon.wrongPins) + 1
      ensures mon.timeLogins <= old(mon.timeLogins) + 3
      ensures mon.updates <= old(mon.updates) + 2
      ensures sound ==> old(sound) && SameLimits(old(dev), dev)
                        && old(dev).registered <= dev.registered <= old(dev).registered + {startup}
      ensures sound && rc == NOERROR ==>
                number in old(dev).open && dev.open == old(dev).open - {number} && dev.used == old(dev).used
      ensures sound && rc != NOERROR ==> SameTransactions(old(dev), dev)
      ensures !Recoverable(rc0) ==> mon == old(mon) && (sound ==> dev == old(dev))
      ensures Healthy() && SelfTestPossible(old(dev), old(known), startup) ==>
                (rc == NOERROR <==> Recoverable(rc0) && client in dev.registered && number in old(dev).open)
      ensures rc == NOERROR ==>
                |log| > 0 && log[|log| - 1].cmd == TxFinish(client, number, last) && log[|log| - 1].reply.rc == rc
    {
      hide Scan, Replay, Watch, Step, SelfTestPossible;
      rc, last := rc0, response;
      var retry := RecoverAfter(rc0);
      if retry {
        last := RenewResponse(response);
        if last != 0 {
          rc := TxFinishCall(client, number, last);
        }
      }
    }

    /** worm_transaction_finish, and the second attempt if it fails. */
    method FinishUpToTwice(client: Id, number: nat, response: Handle) returns (rc: int, last: Handle)
      requires InCharge() && mon.live == {response} && response != 0
      modifies this`log, this`mon, this`sound, this`dev, this`known, this`cache, this`lastSync
      ensures InCharge() && mon.live == if last == 0 then {} else {last}
      ensures last == 0 ==> rc != NOERROR
      ensures OnceMore(old(mon.tx), mon.tx, rc == NOERROR)
      ensures mon.wrongPins <= old(mon.wrongPins) + 1
      ensures mon.timeLogins <= old(mon.timeLogins) + 3
      ensures mon.updates <= old(mon.updates) + 2
      ensures sound ==> old(sound) && SameLimits(old(dev), dev)
                        && old(dev).registered <= dev.registered <= old(dev).registered + {startup}
      ensures sound && rc == NOERROR ==>
                number in old(dev).open && dev.open == old(dev).open - {number} && dev.used == old(dev).used
      ensures sound && rc != NOERROR ==> SameTransactions(old(dev), dev)
      ensures Healthy() && SelfTestPossible(old(dev), old(known), startup) ==>
                (rc == NOERROR <==> client in dev.registered && number in old(dev).open)
      ensures Healthy() && old(dev).tested && old(dev).timeValid ==>
                && (rc == NOERROR <==> client in old(dev).registered && number in old(dev).open)
                && OneCall(old(mon), mon)
      ensures rc == NOERROR ==>
                |log| > 0 && log[|log| - 1].cmd == TxFinish(client, number, last) && log[|log| - 1].reply.rc == rc
    {
      hide Scan, Replay, Watch, Step, SelfTestPossible, SameTransactions;
      rc := TxFinishCall(client, number, response);
      last := response;
      if rc != NOERROR {
        rc, last := FinishAgain(client, number, rc, response);
      }
    }

    /** The part of tse_worm_finish_transaction between lock and unlock that follows the checks. */
    method FinishLocked(client: Id, number: nat) returns (ok: bool)
      requires InCharge() && mon.live == {}
      modifies this`log, this`mon, this`sound, this`dev, this`known, this`cache, this`lastSync
      ensures InCharge() && mon.live == {}
      ensures OnceMore(old(mon.tx), mon.tx, ok)
      ensures mon.wrongPins <= old(mon.wrongPins) + 1
      ensures mon.timeLogins <= old(mon.timeLogins) + 3
      ensures mon.updates <= old(mon.updates) + 2
      ensures sound ==> old(sound) && SameLimits(old(dev), dev)
                        && old(dev).registered <= dev.registered <= old(dev).registered + {startup}
      ensures sound && ok ==>
                number in old(dev).open && dev.open == old(dev).open - {number} && dev.used == old(dev).used
      ensures sound && !ok ==> SameTransactions(old(dev), dev)
      ensures Healthy() && SelfTestPossible(old(dev), old(known), startup) ==>
                (ok <==> client in dev.registered && number in old(dev).open)
      ensures Healthy() && old(dev).tested && old(dev).timeValid ==>
                && (ok <==> client in old(dev).registered && number in old(dev).open)
                && OneCall(old(mon), mon)
      ensures ok ==> FinishServed(log, client, number)
    {
      hide Scan, Replay, Watch, Step, SelfTestPossible, EndsServed;
      var response := NewHandle(ResponseNew);
      if response == 0 {
        return false;
      }
      var rc, last := FinishUpToTwice(client, number, response);
      if last == 0 {
        return false;
      }
      ok := rc == NOERROR;
      CloseResponse(last, ok);
    }

    /** tse_worm_finish_transaction */
    method FinishTransaction(client: Id, number: nat) returns (rc: int, tx: Tx)
      requires Valid() && AtRest(mon)
      modifies this
      ensures Valid() && AtRest(mon)
      ensures rc == 0 || rc == -1
      ensures !active ==> rc == -1 && log == old(log)
      ensures OnceMore(old(mon.tx), mon.tx, rc == 0)
      ensures mon.wrongPins <= old(mon.wrongPins) + 2
      ensures mon.timeLogins <= old(mon.timeLogins) + 6
      ensures mon.updates <= old(mon.updates) + 4
      ensures sound ==> old(sound) && SameLimits(old(dev), dev)
      ensures sound && rc == 0 ==>
                number in old(dev).open && dev.open == old(dev).open - {number} && dev.used == old(dev).used
      ensures rc == 0 ==> |log| > 0 && FinishServed(log[..|log| - 1], SafeId(client), number)
      ensures rc == 0 ==> tx == Tx(number, Clip(client), true)
      ensures sound && rc != 0 ==> SameTransactions(old(dev), dev)
      ensures active && Healthy() && SelfTestPossible(old(dev), old(known), startup) ==>
                (rc == 0 <==> SafeId(client) in dev.registered && number in old(dev).open)
      ensures active && Healthy() && SelfTestPossible(old(dev), old(known), startup) ==>
                && (SafeId(client) in old(dev).registered && number in old(dev).open ==> rc == 0)
                && (rc == 0 ==> number in old(dev).open
                                && (SafeId(client) in old(dev).registered || SafeId(client) == startup))
      ensures active && Healthy() && SelfTestPossible(old(dev), old(known), startup) && dev.honest ==>
                (rc == 0 <==> number in old(dev).open && SafeId(client) in Refreshed(old(dev), old(known), startup))
      ensures active && Healthy() && SelfTestPossible(old(dev), old(known), startup) && dev.honest
              && old(dev).tested && old(dev).timeValid ==>
                OneCall(old(mon), mon)
    {
      hide Scan, Replay, Watch, Step, FinishServed, Recoverable, Clip;
      tx := Tx(0, [], true);
      if !active { return -1, tx; }
      var safeId := SafeClientId(client);
      AcquireLock();
      Prepare();
      var ok := FinishLocked(safeId, number);
      ReleaseLock();
      if !ok { return -1, tx; }
      return 0, Tx(number, Clip(client), true);
    }

    /** The checks before an export. */
    method PrepareExport()
      requires InCharge()
      modifies this`log, this`mon, this`sound, this`dev, this`known, this`cache, this`lastSync
      ensures InCharge()
      ensures mon.live == old(mon.live) && mon.tx == old(mon.tx)
      ensures mon.wrongPins <= old(mon.wrongPins) + 1
      ensures mon.timeLogins <= old(mon.timeLogins) + 3
      ensures mon.updates <= old(mon.updates) + 2
      ensures sound ==> old(sound) && Drifts(old(dev), dev, startup)
      ensures Healthy() && dev.honest && SelfTestPossible(old(dev), old(known), startup) ==>
                dev.tested && dev.timeValid
    {
      EnsureSelfTestPassed(false);
      var valid := HasValidTime();
      if !valid {
        var _ := PerformTimeSync();
      }
    }

    /** tse_worm_export_prepare */
    method ExportPrepare() returns (rc: int)
      requires Valid() && AtRest(mon)
      modifies this
      ensures Valid() && AtRest(mon) && mon.tx == old(mon.tx)
      ensures mon.wrongPins <= old(mon.wrongPins) + 1
      ensures mon.timeLogins <= old(mon.timeLogins) + 3
      ensures mon.updates <= old(mon.updates) + 2
      ensures !active || !api.exportTar ==> rc == -1 && log == old(log)
      ensures sound ==> old(sound) && Drifts(old(dev), dev, startup)
      ensures sound && dev.honest && api == FULL_API && rc == 0 ==> dev.tested && dev.timeValid
      ensures active && Healthy() && dev.honest && SelfTestPossible(old(dev), old(known), startup) ==> rc == 0
    {
      hide Scan, Replay, Watch, Step;
      if !active || !api.exportTar { return -1; }
      AcquireLock();
      PrepareExport();
      var ready := HasPassedSelfTest();
      if ready {
        ready := HasValidTime();
      }
      ReleaseLock();
      rc := if ready then 0 else -1;
    }

    /** tse_worm_export_tar */
    method ExportTarLocked() returns (rc: int)
      requires Valid() && AtRest(mon)
      modifies this
      ensures Valid() && AtRest(mon) && mon.tx == old(mon.tx)
      ensures mon.wrongPins <= old(mon.wrongPins) + 1
      ensures mon.timeLogins <= old(mon.timeLogins) + 3
      ensures mon.updates <= old(mon.updates) + 2
      ensures !active || !api.exportTar ==> rc == -1 && log == old(log)
      ensures sound ==> old(sound) && Drifts(old(dev), dev, startup)
      ensures sound && !dev.lenient && rc == 0 ==> dev.tested && dev.timeValid
      ensures active && Healthy() && dev.honest && SelfTestPossible(old(dev), old(known), startup) ==> rc == 0
    {
      if !active || !api.exportTar { return -1; }
      AcquireLock();
      PrepareExport();
      rc := ExportCall();
      ReleaseLock();
      rc := if rc == NOERROR then 0 else -1;
    }

    /** worm_export_tar */
    method ExportCall() returns (rc: int)
      requires InCharge()
      modifies this`log, this`mon, this`sound, this`dev
      ensures InCharge()
      ensures mon.live == old(mon.live) && SameTallies(old(mon), mon)
      ensures sound ==> old(sound) && dev == old(dev)
      ensures sound && !dev.lenient ==> (rc == NOERROR <==> dev.tested && dev.timeValid)
    {
      var r := Call(ExportTar);
      rc := r.rc;
    }

    /** The info query of a poll; the defaults stand for whatever could not be read. */
    method PollInfo() returns (p: Report)
      requires InCharge() && mon.live == {} && mon.asked == SILENCE
      modifies this`log, this`mon, this`sound, this`dev
      ensures InCharge() && mon.live == {} && SameCounts(old(mon), mon) && mon.tests == old(mon.tests)
      ensures mon.polled.Some? && SaysWhatItHeard(p, mon.polled.value)
      ensures sound ==> old(sound) && dev == old(dev)
      ensures !p.fired && !p.renewed && !p.synced
      ensures sound && dev.honest && api == FULL_API ==>
                p.valid == dev.timeValid && p.selfTestOk == dev.tested && p.maxDelay == dev.window && p.until.Some?
    {
      hide Scan, Replay, Watch, Step;
      p := Report(true, true, 0, None, 0, false, false, false, None);
      var info := NewHandle(InfoNew);
      if info != 0 {
        var ok := ReadBlock(info);
        if ok {
          p := PollFields(info);
        }
        FreeHandle(InfoFree(info), info);
      }
      var now := ReadClock();
      p := p.(now := now);
    }

    method PollFields(info: Handle) returns (p: Report)
      requires InCharge() && info in mon.live && mon.asked == SILENCE
      modifies this`log, this`mon, this`sound, this`dev
      ensures InCharge() && mon.live == old(mon.live) && SameTallies(old(mon), mon)
      ensures SaysWhatItHeard(p, Polled(mon.asked, 0))
      ensures sound ==> old(sound) && dev == old(dev)
      ensures !p.fired && !p.renewed && !p.synced
      ensures sound && dev.honest && api == FULL_API ==>
                p.valid == dev.timeValid && p.selfTestOk == dev.tested && p.maxDelay == dev.window && p.until.Some?
    {
      hide Scan, Replay, Watch, Step;
      var valid, passed := true, true;
      if api.hasValidTime {
        var v := GetField(info, Field.HasValidTime);
        valid := v != 0;
      }
      if api.hasPassedSelfTest {
        var v := GetField(info, Field.HasPassedSelfTest);
        passed := v != 0;
      }
      var maxDelay, until := 0, None;
      if api.maxTimeSyncDelay {
        maxDelay := GetField(info, MaxTimeSyncDelay);
      }
      if api.timeUntilNextSelfTest {
        var v := GetField(info, TimeUntilNextSelfTest);
        until := Some(v);
      }
      p := Report(valid, passed, maxDelay, until, 0, false, false, false, None);
    }

    /** What a call of perform_time_sync with this result left in g_last_time_sync, if it wrote it. */
    function Noted(ok: bool): Option<nat>
      reads this`lastSync
    {
      if ok && CanSync() then Some(lastSync) else None
    }

    /** The self-test part of a poll; a scheduled one brings its own time sync. */
    method PollSelfTest(fired: bool, needed: bool) returns (synced: bool, noted: Option<nat>)
      requires InCharge() && (fired ==> needed)
      modifies this`log, this`mon, this`sound, this`dev, this`known, this`cache, this`lastSync
      ensures InCharge() && mon.live == old(mon.live) && mon.tx == old(mon.tx) && mon.polled == old(mon.polled)
      ensures synced == fired
      ensures !fired ==> SameCounts(old(mon), mon)
      ensures if needed && api.selfTest then mon.tests > old(mon.tests) else !needed ==> mon.tests == old(mon.tests)
      ensures if noted.Some? then fired && lastSync == noted.value && EndsInSync(log, lastSync)
              else lastSync == old(lastSync)
      ensures mon.wrongPins <= old(mon.wrongPins) + 1
      ensures mon.timeLogins <= old(mon.timeLogins) + 3
      ensures mon.updates <= old(mon.updates) + 2
      ensures sound ==> old(sound) && Drifts(old(dev), dev, startup)
      ensures Healthy() && SelfTestPossible(old(dev), old(known), startup) ==>
                && SelfTestPossible(dev, known, startup)
                && (needed ==> dev.tested) && (fired ==> dev.timeValid && noted.Some?)
    {
      synced, noted := false, None;
      if needed {
        EnsureSelfTestPassed(true);
        if fired {
          var ok := PerformTimeSync();
          synced, noted := true, Noted(ok);
        }
      }
    }

    /** The self-test and time sync of a poll; true if perform_time_sync was called. */
    method Renew(fired: bool, renewed: bool, p: Report) returns (synced: bool, noted: Option<nat>)
      requires InCharge() && mon.live == {} && (fired ==> renewed)
      modifies this`log, this`mon, this`sound, this`dev, this`known, this`cache, this`lastSync
      ensures InCharge() && mon.live == {} && mon.tx == old(mon.tx) && mon.polled == old(mon.polled)
      ensures synced == (fired || NeedSync(p.valid, old(lastSync), p.now, p.maxDelay))
      ensures !synced ==> SameCounts(old(mon), mon)
      ensures renewed && api.selfTest ==> mon.tests > old(mon.tests)
      ensures !renewed && !synced ==> mon.tests == old(mon.tests)
      ensures if noted.Some? then synced && lastSync == noted.value && EndsInSync(log, lastSync)
              else lastSync == old(lastSync)
      ensures mon.wrongPins <= old(mon.wrongPins) + 1
      ensures mon.timeLogins <= old(mon.timeLogins) + 3
      ensures mon.updates <= old(mon.updates) + 2
      ensures sound ==> old(sound) && Drifts(old(dev), dev, startup)
      ensures Healthy() && SelfTestPossible(old(dev), old(known), startup) ==>
                && SelfTestPossible(dev, known, startup)
                && (renewed ==> dev.tested) && (synced ==> dev.tested && dev.timeValid && noted.Some?)
    {
      synced, noted := PollSelfTest(fired, renewed);
      var needSync := NeedSync(p.valid, lastSync, p.now, p.maxDelay);
      if needSync && !fired {
        var ok := PerformTimeSync();
        synced, noted := true, Noted(ok);
      }
    }

    /** Whether the daily self-test is due now; it is then done for today. */
    method Fire(today: nat, hour: nat, minute: nat) returns (fired: bool)
      modifies this`lastScheduledDay
      ensures fired == (slot.Some? && PastSlot(hour, minute, slot.value.0, slot.value.1)
                        && old(lastScheduledDay) != today)
      ensures lastScheduledDay == if fired then today else old(lastScheduledDay)
    {
      fired := slot.Some? && PastSlot(hour, minute, slot.value.0, slot.value.1) && lastScheduledDay != today;
      if fired {
        lastScheduledDay := today;
      }
    }

    /** A poll of an active TSE, under the lock. */
    method PollLocked(today: nat, hour: nat, minute: nat) returns (p: Report)
      requires InCharge() && mon.live == {} && mon.asked == SILENCE
      modifies this
      ensures InCharge() && mon.live == {} && mon.tx == old(mon.tx)
      ensures mon.polled.Some? && SaysWhatItHeard(p, mon.polled.value)
      ensures mon.wrongPins <= old(mon.wrongPins) + 1
      ensures mon.timeLogins <= old(mon.timeLogins) + 3
      ensures mon.updates <= old(mon.updates) + 2
      ensures p.fired == (slot.Some? && PastSlot(hour, minute, slot.value.0, slot.value.1)
                          && old(lastScheduledDay) != today)
      ensures lastScheduledDay == if p.fired then today else old(lastScheduledDay)
      ensures p.renewed == NeedSelfTest(p.selfTestOk, p.fired, p.until)
      ensures p.renewed && api.selfTest ==> mon.tests > old(mon.tests)
      ensures p.synced == (p.fired || NeedSync(p.valid, old(lastSync), p.now, p.maxDelay))
      ensures !p.synced ==> SameCounts(old(mon), mon)
      ensures !p.renewed && !p.synced ==> mon.tests == old(mon.tests)
      ensures if p.noted.Some? then p.synced && lastSync == p.noted.value && EndsInSync(log, lastSync)
              else lastSync == old(lastSync)
      ensures sound ==> old(sound) && Drifts(old(dev), dev, startup)
      ensures Healthy() && SelfTestPossible(old(dev), old(known), startup) ==>
                && SelfTestPossible(dev, known, startup)
                && (p.renewed ==> dev.tested) && (p.synced ==> dev.tested && dev.timeValid && p.noted.Some?)
      ensures sound && dev.honest && api == FULL_API ==>
                && p.valid == old(dev).timeValid && p.selfTestOk == old(dev).tested
                && p.maxDelay == dev.window && p.until.Some?
    {
      hide Scan, Replay, Watch, Step, EndsInSync, NeedSync, PastSlot, SelfTestPossible;
      p := PollInfo();
      var fired := Fire(today, hour, minute);
      var renewed := NeedSelfTest(p.selfTestOk, fired, p.until);
      var synced, noted := Renew(fired, renewed, p);
      p := p.(fired := fired, renewed := renewed, synced := synced, noted := noted);
    }

    /** The body of time_sync_thread_main's loop after the sleep, at the given local time. */
    method PollOnce(today: nat, hour: nat, minute: nat) returns (p: Report)
      requires Valid() && AtRest(mon)
      modifies this
      ensures Valid() && AtRest(mon) && mon.tx == old(mon.tx)
      ensures mon.wrongPins <= old(mon.wrongPins) + 1
      ensures mon.timeLogins <= old(mon.timeLogins) + 3
      ensures mon.updates <= old(mon.updates) + 2
      ensures !active ==> lastScheduledDay == old(lastScheduledDay)
      ensures active ==> mon.polled.Some? && SaysWhatItHeard(p, mon.polled.value)
      ensures active ==>
                && p.fired == (slot.Some? && PastSlot(hour, minute, slot.value.0, slot.value.1)
                               && old(lastScheduledDay) != today)
                && lastScheduledDay == (if p.fired then today else old(lastScheduledDay))
                && p.renewed == NeedSelfTest(p.selfTestOk, p.fired, p.until)
                && (p.renewed && api.selfTest ==> mon.tests > old(mon.tests))
                && p.synced == (p.fired || NeedSync(p.valid, old(lastSync), p.now, p.maxDelay))
      ensures !p.synced ==> SameCounts(old(mon), mon)
      ensures !p.renewed && !p.synced ==> mon.tests == old(mon.tests)
      ensures if p.noted.Some? then p.synced && lastSync == p.noted.value && EndedInSync()
              else lastSync == old(lastSync)
      ensures sound ==> old(sound) && Drifts(old(dev), dev, startup)
      ensures active && Healthy() && SelfTestPossible(old(dev), old(known), startup) ==>
                && SelfTestPossible(dev, known, startup)
                && (p.renewed ==> dev.tested) && (p.synced ==> dev.tested && dev.timeValid && p.noted.Some?)
      ensures active && sound && dev.honest && api == FULL_API ==>
                && p.valid == old(dev).timeValid && p.selfTestOk == old(dev).tested
                && p.maxDelay == dev.window && p.until.Some?
    {
      hide Scan, Replay, Watch, Step, EndsInSync, NeedSync, NeedSelfTest, PastSlot, SelfTestPossible, SaysWhatItHeard;
      AcquireLock();
      if !active {
        ReleaseLock();
        p := Report(true, true, 0, None, 0, false, false, false, None);
        return;
      }
      p := PollLocked(today, hour, minute);
      ReleaseLock();
    }

    /** Before the lock was released, the log ended in the sync whose clock reply is g_last_time_sync. */
    predicate EndedInSync()
      reads this`log, this`lastSync
    {
      |log| > 0 && EndsInSync(log[..|log| - 1], lastSync)
    }

    /** time_sync_thread_main before its loop: a slot already past counts as done. */
    method StartPoller(start: Instant)
      requires Valid() && slot.Some? && slot.value.1 < 60
      modifies this`lastScheduledDay
      ensures Valid()
      ensures lastScheduledDay == InitialDay(start, slot.value.0 * 3600 + slot.value.1 * 60)
    {
      PastSlotIsPast(start, slot.value.0, slot.value.1);
      var done := PastSlot(start.second / 3600, start.second / 60 % 60, slot.value.0, slot.value.1);
      lastScheduledDay := if done then start.day else 0;
    }

    /** One wake-up of the thread. */
    method PollAt(t: Instant) returns (p: Report)
      requires Valid() && AtRest(mon) && active && slot.Some? && slot.value.1 < 60
      modifies this
      ensures Valid() && AtRest(mon) && mon.tx == old(mon.tx) && mon.wrongPins <= old(mon.wrongPins) + 1
      ensures p.fired == FiresNow(old(lastScheduledDay), t, slot.value.0 * 3600 + slot.value.1 * 60)
      ensures lastScheduledDay == if p.fired then t.day else old(lastScheduledDay)
      ensures p.synced == (p.fired || NeedSync(p.valid, old(lastSync), p.now, p.maxDelay))
      ensures p.noted.Some? ==> p.synced
      ensures lastSync == if p.noted.Some? then p.noted.value else old(lastSync)
      ensures sound ==> old(sound) && Drifts(old(dev), dev, startup)
      ensures Healthy() && SelfTestPossible(old(dev), old(known), startup) ==>
                SelfTestPossible(dev, known, startup) && (p.synced ==> p.noted.Some?)
      ensures sound && dev.honest && api == FULL_API ==> p.maxDelay == dev.window
    {
      hide Valid, AtRest, Drifts, SelfTestPossible, NeedSync, NeedSelfTest, EndsInSync, SaysWhatItHeard;
      PastSlotIsPast(t, slot.value.0, slot.value.1);
      p := PollOnce(t.day, t.second / 3600, t.second / 60 % 60);
    }

    /** A wake-up that follows the ones reported so far. */
    method PollNext(t: Instant, ghost polls: seq<Instant>, ghost reports: seq<Report>, ghost first: nat,
                    ghost last: nat)
      returns (p: Report)
      requires Valid() && AtRest(mon) && active && slot.Some? && slot.value.1 < 60
      requires |reports| < |polls| && t == polls[|reports|]
      requires FiresSoFar(polls, reports, lastScheduledDay, first, slot.value.0 * 3600 + slot.value.1 * 60)
      requires AllDecided(last, reports) && lastSync == LastSyncAfter(last, reports)
      modifies this
      ensures Valid() && AtRest(mon) && mon.tx == old(mon.tx) && mon.wrongPins <= old(mon.wrongPins) + 1
      ensures FiresSoFar(polls, reports + [p], lastScheduledDay, first, slot.value.0 * 3600 + slot.value.1 * 60)
      ensures AllDecided(last, reports + [p]) && lastSync == LastSyncAfter(last, reports + [p])
      ensures sound ==> old(sound) && Drifts(old(dev), dev, startup)
      ensures Healthy() && SelfTestPossible(old(dev), old(known), startup) ==>
                SelfTestPossible(dev, known, startup) && (p.synced ==> p.noted.Some?)
      ensures sound && dev.honest && api == FULL_API ==> p.maxDelay == dev.window
    {
      hide Scan, Replay, Watch, Step, Valid, AtRest, Drifts, SelfTestPossible;
      hide FiresSoFar, FiresNow, AllDecided, LastSyncAfter, NeedSync;
      ghost var at, day := slot.value.0 * 3600 + slot.value.1 * 60, lastScheduledDay;
      p := PollAt(t);
      FiresNext(polls, reports, p, day, first, at);
      DecidedNext(last, reports, p);
    }

    /** time_sync_thread_main, started at one instant and woken up at the others.  The daily self-tests
        it reports are the ones of Fires, which has exactly one on every day that is polled past the slot.
        Every poll decides about its time sync by the g_last_time_sync that the polls before it left, and on
        a healthy device every sync works. */
    method RunPoller(start: Instant, polls: seq<Instant>) returns (reports: seq<Report>)
      requires Valid() && AtRest(mon) && slot.Some? && slot.value.1 < 60
      modifies this
      ensures Valid() && AtRest(mon) && mon.tx == old(mon.tx)
      ensures mon.wrongPins <= old(mon.wrongPins) + |polls|
      ensures |reports| == if active then |polls| else 0
      ensures var at := slot.value.0 * 3600 + slot.value.1 * 60;
              active ==> Fired(polls, reports) == Fires(InitialDay(start, at), polls, at)
      ensures AllDecided(old(lastSync), reports) && lastSync == LastSyncAfter(old(lastSync), reports)
      ensures sound ==> old(sound) && Drifts(old(dev), dev, startup)
      ensures Healthy() && SelfTestPossible(old(dev), old(known), startup) ==> AllNoted(reports)
      ensures sound && dev.honest && api == FULL_API ==> AllWindow(reports, dev.window)
    {
      ghost var at := slot.value.0 * 3600 + slot.value.1 * 60;
      hide Fires, Fired, FiresNow, FiresSoFar, InitialDay, Valid, AtRest;
      hide AllDecided, LastSyncAfter, NeedSync, SelfTestPossible, AllNoted, AllWindow, Healthy;
      hide Scan, Replay, Watch, Step, Drifts;
      DriftsOn(dev, dev, dev, startup);
      NothingYet(lastSync);
      StartPoller(start);
      FiresAtFirst(polls, lastScheduledDay, at);
      reports := [];
      var k: nat := 0;
      while k < |polls| && active
        invariant k <= |polls| && |reports| == k && (!active ==> k == 0)
        invariant Valid() && AtRest(mon) && mon.tx == old(mon.tx)
        invariant mon.wrongPins <= old(mon.wrongPins) + k
        invariant sound ==> old(sound) && Drifts(old(dev), dev, startup)
        invariant FiresSoFar(polls, reports, lastScheduledDay, InitialDay(start, at), at)
        invariant AllDecided(old(lastSync), reports) && lastSync == LastSyncAfter(old(lastSync), reports)
        invariant Healthy() && SelfTestPossible(old(dev), old(known), startup) ==>
                    SelfTestPossible(dev, known, startup) && AllNoted(reports)
        invariant sound && dev.honest && api == FULL_API ==> AllWindow(reports, dev.window)
      {
        ghost var d := dev;
        var p := PollNext(polls[k], polls, reports, InitialDay(start, at), old(lastSync));
        if sound {
          DriftsOn(old(dev), d, dev, startup);
        }
        NotedNext(reports, p);
        reports := reports + [p];
        k := k + 1;
      }
      if active {
        FiresAtLast(polls, reports, lastScheduledDay, InitialDay(start, at), at);
      }
    }
  }
}
