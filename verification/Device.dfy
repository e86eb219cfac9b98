/** The TSE behind libWormAPI, seen from c/src/tse_worm.c.

    The protocol code talks to the device through a log of calls and replies.  Two folds over
    that log give it meaning:
     - Scan is a discipline monitor (lock, session, handles, PIN attempts); it never looks at
       whether the replies make sense, so what is proved about it holds against every oracle;
     - Replay runs a concrete device along the log and is None as soon as a reply is one that
       this device could not have given. */
module Device {
  import opened Wrappers
  import opened ClientId

  const NOERROR := 0
  const POWER_CYCLE_DETECTED := 13
  const NO_TIME_SET := 4098
  const NEEDS_SELF_TEST := 4180
  const NEEDS_SELF_TEST_PASSED := 4181
  const AUTHENTICATION_FAILED := 4352
  const SIG_ERROR := 65280

  predicate NeedsSelfTest(rc: int) {
    rc == NEEDS_SELF_TEST || rc == NEEDS_SELF_TEST_PASSED || rc == POWER_CYCLE_DETECTED || rc == SIG_ERROR
  }

  /** The errors after which an operation is tried once more. */
  predicate Recoverable(rc: int) {
    NeedsSelfTest(rc) || rc == NO_TIME_SET
  }

  datatype User = Admin | TimeAdmin

  datatype Field = HasPassedSelfTest | HasValidTime | MaxTimeSyncDelay | TimeUntilNextSelfTest

  type Handle = nat

  datatype Cmd =
    | Lock
    | Unlock
    | Clock
    | InfoNew
    | InfoRead(info: Handle)
    | InfoGet(info: Handle, field: Field)
    | InfoFree(info: Handle)
    | Login(user: User)
    | Logout(user: User)
    | SelfTest(client: Id)
    | Register(client: Id)
    | UpdateTime(now: nat)
    | ResponseNew
    | ResponseRead(response: Handle)
    | ResponseFree(response: Handle)
    | TxStart(client: Id, response: Handle)
    | TxFinish(client: Id, number: nat, response: Handle)
    | ExportTar

  /** rc is the return code (or the handle's being non-null); num a getter's value, the clock,
      or the number the device gave a started transaction. */
  datatype Reply = Reply(rc: int, num: nat)

  datatype Event = Event(cmd: Cmd, reply: Reply)

  /** A handle is named after the position of the call that made it; 0 is the null handle. */
  function HandleOf(position: nat, r: Reply): Handle {
    if r.rc == 0 then 0 else position + 1
  }

  // ----- The discipline monitor -----

  /** The last reply of each getter of the info block since the lock was taken. */
  datatype Answers = Answers(passed: Option<nat>, valid: Option<nat>, window: Option<nat>, countdown: Option<nat>)

  const SILENCE := Answers(None, None, None, None)

  function Get(a: Answers, f: Field): Option<nat> {
    match f
    case HasPassedSelfTest => a.passed
    case HasValidTime => a.valid
    case MaxTimeSyncDelay => a.window
    case TimeUntilNextSelfTest => a.countdown
  }

  function Put(a: Answers, f: Field, n: nat): Answers {
    match f
    case HasPassedSelfTest => a.(passed := Some(n))
    case HasValidTime => a.(valid := Some(n))
    case MaxTimeSyncDelay => a.(window := Some(n))
    case TimeUntilNextSelfTest => a.(countdown := Some(n))
  }

  /** What had been answered when the clock was read outside a session, as only the poller does. */
  datatype Polled = Polled(answers: Answers, now: nat)

  datatype Monitor = Monitor(
    ok: bool,
    locked: bool,
    session: Option<User>,
    live: set<Handle>,
    wrongPins: nat,       // TimeAdmin logins answered AUTHENTICATION_FAILED
    timeLogins: nat,      // TimeAdmin login attempts
    updates: nat,         // updateTime calls
    tests: nat,           // runSelfTest calls
    tx: seq<int>,         // return codes of the transaction calls
    clock: Option<nat>,   // the clock reply, right after the clock was read
    asked: Answers,
    polled: Option<Polled>)

  const QUIET := Monitor(true, false, None, {}, 0, 0, 0, 0, [], None, SILENCE, None)

  /** The lock is free, nobody is logged in and no handle is alive. */
  predicate AtRest(m: Monitor) {
    m.ok && !m.locked && m.session == None && m.live == {}
  }

  /** Whether a call is allowed now: the lock is not re-entered; everything the device sees happens
      under the lock; sessions never overlap; updateTime runs inside a TimeAdmin session and sends the
      clock that was read just before; only live
      handles are used or freed; the lock is not released inside a session or with a live handle. */
  predicate Allowed(m: Monitor, c: Cmd) {
    match c
    case Lock => !m.locked
    case Unlock => m.locked && m.session == None && m.live == {}
    case Clock => true
    case InfoNew => m.locked
    case InfoRead(h) => m.locked && h in m.live
    case InfoGet(h, _) => m.locked && h in m.live
    case InfoFree(h) => m.locked && h in m.live
    case Login(_) => m.locked && m.session == None
    case Logout(u) => m.locked && m.session == Some(u)
    case SelfTest(_) => m.locked
    case Register(_) => m.locked
    case UpdateTime(now) => m.locked && m.session == Some(TimeAdmin) && m.clock == Some(now)
    case ResponseNew => m.locked
    case ResponseRead(h) => m.locked && h in m.live
    case ResponseFree(h) => m.locked && h in m.live
    case TxStart(_, h) => m.locked && h in m.live
    case TxFinish(_, _, h) => m.locked && h in m.live
    case ExportTar => m.locked
  }

  function Effect(m: Monitor, position: nat, e: Event): Monitor {
    var rc := e.reply.rc;
    match e.cmd
    case Lock => m.(locked := true)
    case Unlock => m.(locked := false)
    case Login(u) =>
      var m1 := if rc == NOERROR then m.(session := Some(u)) else m;
      if u == Admin then m1
      else m1.(timeLogins := m.timeLogins + 1,
               wrongPins := m.wrongPins + if rc == AUTHENTICATION_FAILED then 1 else 0)
    case Logout(_) => m.(session := None)
    case UpdateTime(_) => m.(updates := m.updates + 1)
    case SelfTest(_) => m.(tests := m.tests + 1)
    case InfoNew => m.(live := m.live + {HandleOf(position, e.reply)} - {0})
    case ResponseNew => m.(live := m.live + {HandleOf(position, e.reply)} - {0})
    case InfoFree(h) => m.(live := m.live - {h})
    case ResponseFree(h) => m.(live := m.live - {h})
    case TxStart(_, _) => m.(tx := m.tx + [rc])
    case TxFinish(_, _, _) => m.(tx := m.tx + [rc])
    case _ => m
  }

  /** What the monitor hears. */
  function Heard(m: Monitor, e: Event): (h: Monitor)
    ensures h == m.(clock := h.clock, asked := h.asked, polled := h.polled)
  {
    match e.cmd
    case Lock => m.(clock := None, asked := SILENCE)
    case Clock =>
      var now := e.reply.num;
      m.(clock := Some(now), polled := if m.session == None then Some(Polled(m.asked, now)) else m.polled)
    case InfoGet(_, f) => m.(clock := None, asked := Put(m.asked, f, e.reply.num))
    case _ => m.(clock := None)
  }

  function Watch(m: Monitor, position: nat, e: Event): Monitor {
    Effect(Heard(m, e), position, e).(ok := m.ok && Allowed(m, e.cmd))
  }

  function Scan(log: seq<Event>): Monitor {
    if log == [] then QUIET
    else Watch(Scan(log[..|log| - 1]), |log| - 1, log[|log| - 1])
  }

  lemma ScanNext(log: seq<Event>, e: Event)
    ensures Scan(log + [e]) == Watch(Scan(log), |log|, e)
  {
    assert (log + [e])[..|log|] == log;
  }

  lemma WatchKeepsHandlesYoung(m: Monitor, position: nat, e: Event)
    requires forall h :: h in m.live ==> 0 < h <= position
    ensures forall h :: h in Watch(m, position, e).live ==> 0 < h <= position + 1
  {
  }

  // ----- The concrete device -----

  /** A TSE.  With `lenient` it may fail any call for any reason, as long as the calls it accepts
      are sound; with `honest` its info block always tells the truth. */
  datatype Tse = Tse(
    tested: bool,
    timeValid: bool,
    registered: set<Id>,
    slots: nat,
    open: set<nat>,
    used: set<nat>,
    maxOpen: nat,
    window: nat,           // maxTimeSynchronizationDelay
    testDropsTime: bool,   // whether running the self-test invalidates the clock
    honest: bool,
    lenient: bool)

  // How libWormAPI says that the self-test is due, and that the clock is
  const UNTESTED: set<int> := {13, 4180, 4181, 65280}
  const CLOCKLESS := 4098

  /** The code cures exactly what the device complains about. */
  lemma CuresExactly(rc: int)
    ensures NeedsSelfTest(rc) <==> rc in UNTESTED
    ensures Recoverable(rc) <==> rc in UNTESTED || rc == CLOCKLESS
  {
  }

  predicate CanStart(d: Tse, c: Id) {
    d.tested && d.timeValid && c in d.registered && |d.open| < d.maxOpen
  }

  predicate CanFinish(d: Tse, c: Id, n: nat) {
    d.tested && d.timeValid && c in d.registered && n in d.open
  }

  /** A refusal blames something that is really wrong; `other` is any cause a retry cannot cure. */
  predicate Refuses(d: Tse, rc: int, other: bool) {
    && rc != NOERROR
    && (rc in UNTESTED ==> !d.tested)
    && (rc == CLOCKLESS ==> !d.timeValid)
    && (rc !in UNTESTED && rc != CLOCKLESS ==> other)
  }

  predicate InfoAnswer(d: Tse, f: Field, r: Reply) {
    match f
    case HasPassedSelfTest => r.num != 0 <==> d.tested
    case HasValidTime => r.num != 0 <==> d.timeValid
    case MaxTimeSyncDelay => r.num == d.window
    case TimeUntilNextSelfTest => true   // counts down with the time
  }

  /** One call on the device; None when the device could not have answered like this.  A failing
      call changes nothing. */
  function Step(d: Tse, e: Event): Option<Tse> {
    var rc := e.reply.rc;
    match e.cmd
    case InfoNew => if d.honest ==> rc != 0 then Some(d) else None
    case InfoRead(_) => if d.honest ==> rc == NOERROR then Some(d) else None
    case InfoGet(_, f) => if d.honest ==> InfoAnswer(d, f, e.reply) then Some(d) else None
    case Login(u) =>
      if d.lenient || u == Admin || (if d.tested then rc == NOERROR else rc in UNTESTED) then Some(d) else None
    case SelfTest(c) =>
      if rc == NOERROR && (d.lenient || c in d.registered) then
        Some(d.(tested := true, timeValid := d.timeValid && !d.testDropsTime))
      else if rc != NOERROR && (d.lenient || c !in d.registered) then Some(d)
      else None
    case Register(c) =>
      if rc == NOERROR && c !in d.registered && |d.registered| < d.slots then Some(d.(registered := d.registered + {c}))
      else if rc != NOERROR && (d.lenient || c in d.registered || |d.registered| >= d.slots) then Some(d)
      else None
    case UpdateTime(_) =>
      if rc == NOERROR && d.tested then Some(d.(timeValid := true))
      else if rc != NOERROR && (d.lenient || (!d.tested && rc in UNTESTED)) then Some(d)
      else None
    case ResponseNew => if d.lenient || rc != 0 then Some(d) else None
    case TxStart(c, _) =>
      if rc == NOERROR && (d.lenient || CanStart(d, c)) && e.reply.num !in d.used then
        Some(d.(open := d.open + {e.reply.num}, used := d.used + {e.reply.num}))
      else if rc != NOERROR && (d.lenient || Refuses(d, rc, c !in d.registered || |d.open| >= d.maxOpen)) then Some(d)
      else None
    case TxFinish(c, n, _) =>
      if rc == NOERROR && (d.lenient || CanFinish(d, c, n)) && n in d.open then Some(d.(open := d.open - {n}))
      else if rc != NOERROR && (d.lenient || Refuses(d, rc, c !in d.registered || n !in d.open)) then Some(d)
      else None
    case ExportTar =>
      if d.lenient || (rc == NOERROR <==> d.tested && d.timeValid) then Some(d) else None
    case _ => Some(d)
  }

  function Advance(d: Option<Tse>, e: Event): Option<Tse> {
    if d.Some? then Step(d.value, e) else None
  }

  function Replay(d: Tse, log: seq<Event>): Option<Tse> {
    if log == [] then Some(d)
    else Advance(Replay(d, log[..|log| - 1]), log[|log| - 1])
  }

  lemma ReplayNext(d: Tse, log: seq<Event>, e: Event)
    ensures Replay(d, log + [e]) == Advance(Replay(d, log), e)
  {
    assert (log + [e])[..|log|] == log;
  }

  // ----- The device can always answer -----

  lemma Above(s: set<nat>) returns (n: nat)
    ensures forall x :: x in s ==> x < n
  {
    if s == {} {
      n := 0;
    } else {
      var x :| x in s;
      var m := Above(s - {x});
      n := if m > x then m else x + 1;
      assert s == (s - {x}) + {x};
    }
  }

  /** The answer of a strict and honest device; unused is a number it has not used. */
  function HonestReply(d: Tse, c: Cmd, unused: nat): Reply {
    var good := Reply(NOERROR, 0);
    var untested := Reply(NEEDS_SELF_TEST, 0);
    var refused := Reply(1, 0);
    var unready := if !d.tested then untested else if !d.timeValid then Reply(NO_TIME_SET, 0) else refused;
    match c
    case InfoNew => Reply(1, 0)
    case ResponseNew => Reply(1, 0)
    case InfoGet(_, f) =>
      var one := if (if f.HasPassedSelfTest? then d.tested else d.timeValid) then 1 else 0;
      Reply(NOERROR, if f.MaxTimeSyncDelay? then d.window else one)
    case Login(u) => if d.tested || u == Admin then good else untested
    case SelfTest(i) => if i in d.registered then good else refused
    case Register(i) => if i !in d.registered && |d.registered| < d.slots then good else refused
    case UpdateTime(_) => if d.tested then good else untested
    case TxStart(i, _) => if CanStart(d, i) then Reply(NOERROR, unused) else unready
    case TxFinish(i, n, _) => if CanFinish(d, i, n) then good else unready
    case ExportTar => if d.tested && d.timeValid then good else refused
    case _ => good
  }

  /** Every device has an answer to every call, lenient or strict, honest or not. */
  lemma DeviceAnswers(d: Tse, c: Cmd) returns (r: Reply)
    ensures Step(d, Event(c, r)).Some?
  {
    var unused := Above(d.used);
    r := HonestReply(d, c, unused);
  }

  /** However a caller chooses its calls from what it has seen, there are answers to n of them that the
      device could have given: the replies that `sound` asks for exist. */
  lemma {:induction false} Conversation(d: Tse, caller: seq<Event> -> Cmd, n: nat) returns (log: seq<Event>)
    ensures |log| == n && (forall i :: 0 <= i < n ==> log[i].cmd == caller(log[..i]))
    ensures Replay(d, log).Some?
  {
    if n == 0 {
      log := [];
    } else {
      var front := Conversation(d, caller, n - 1);
      var r := DeviceAnswers(Replay(d, front).value, caller(front));
      log := front + [Event(caller(front), r)];
      ReplayNext(d, front, log[n - 1]);
      assert forall i :: 0 <= i < n ==> log[..i] == front[..i];
      assert front[..n - 1] == front;
    }
  }
}
