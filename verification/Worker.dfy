/** The single-slot worker queue of c/src/tse_worker.c as a monitor protocol.

    Threads move one at a time, each from one program counter to the next; a counter's comment
    gives the line it is about to execute.  Any number of callers may arrive, callers are numbered
    in order of arrival, and a waiter may wake up spuriously at any time. */
module Worker {
  import opened Wrappers

  /** Who holds s_mu. */
  datatype Owner = Nobody | ByWorker | ByCaller(id: nat) | ByStopper

  datatype WorkerPc =
    | WStart              // 36: wants s_mu
    | WTest               // 37
    | WInner              // 39
    | WWait               // 40: in the wait set of s_cond
    | WWake               // 40: woken, wants s_mu back
    | WTake               // 42-47
    | WBroadcast(job: nat) // 49
    | WUnlock(job: nat)   // 50
    | WRun(job: nat)      // 53
    | WLockJob(job: nat)  // 56: wants job->mu
    | WDone(job: nat)     // 57
    | WSignal(job: nat)   // 58
    | WUnlockJob(job: nat) // 59
    | WRelock             // 61: wants s_mu
    | WLeave              // 63
    | WExit

  datatype CallerPc =
    | CLock               // 101: wants s_mu
    | CCheck              // 102
    | CRefuse             // 103
    | CSlot               // 109
    | CWait               // 110: in the wait set of s_cond
    | CWake               // 110: woken, wants s_mu back
    | CPost               // 112
    | CSignal             // 113
    | CUnlock             // 114
    | CLockJob            // 117: wants job.mu
    | CTest               // 118
    | CJobWait            // 119: in the wait set of job.cond
    | CJobWake            // 119: woken, wants job.mu back
    | CUnlockJob          // 121
    | CDestroy            // 123-124
    | CReturn             // returned 0
    | CReject             // returned -1

  datatype StopperPc =
    | SIdle               // tse_worker_shutdown not called yet
    | SLock               // 85: wants s_mu
    | SClear              // 86
    | SSignal             // 87
    | SUnlock             // 88
    | SJoin               // 90
    | SDone

  /** Who holds job.mu of a call. */
  datatype JobOwner = JobFree | JobByWorker | JobByCaller

  datatype State = State(
    mu: Owner,
    running: bool,
    slot: Option<nat>,        // s_pending
    w: WorkerPc,
    c: seq<CallerPc>,
    jobMu: seq<JobOwner>,
    done: set<nat>,           // the jobs whose done flag is set
    stop: StopperPc,
    // history
    posted: seq<nat>,
    executed: seq<nat>,
    atStop: seq<nat>,         // posted when s_running was cleared
    late: set<nat>)           // calls then past the check of line 102 that had not posted yet

  /** The state tse_worker_init leaves. */
  const INIT := State(Nobody, true, None, WStart, [], [], {}, SIdle, [], [], [], {})

  datatype Wake = Wake(worker: bool, callers: set<nat>)

  datatype Step =
    | OfWorker
    | OfCaller(id: nat, wake: Wake)
    | OfStopper(wake: Wake)
    | Call
    | Shutdown
    | SpuriousWorker
    | SpuriousCaller(id: nat)
    | SpuriousJob(id: nat)

  /** pthread_cond_signal wakes at least one waiter if there is one. */
  ghost predicate GoodWake(s: State, k: Wake) {
    && (k.worker ==> s.w == WWait)
    && (forall i :: i in k.callers ==> i < |s.c| && s.c[i] == CWait)
    && (s.w == WWait || (exists i :: 0 <= i < |s.c| && s.c[i] == CWait) ==> k.worker || k.callers != {})
  }

  function WakeCallers(c: seq<CallerPc>, ids: set<nat>): (r: seq<CallerPc>)
    ensures |r| == |c|
    ensures forall i :: 0 <= i < |c| ==> r[i] == if i in ids && c[i] == CWait then CWake else c[i]
  {
    seq(|c|, i requires 0 <= i < |c| => if i in ids && c[i] == CWait then CWake else c[i])
  }

  function WakeAll(c: seq<CallerPc>): (r: seq<CallerPc>)
    ensures |r| == |c|
    ensures forall i :: 0 <= i < |c| ==> r[i] == if c[i] == CWait then CWake else c[i]
  {
    seq(|c|, i requires 0 <= i < |c| => if c[i] == CWait then CWake else c[i])
  }

  function SignalCond(s: State, k: Wake): State {
    s.(w := if k.worker && s.w == WWait then WWake else s.w, c := WakeCallers(s.c, k.callers))
  }

  function WorkerStep(s: State): Option<State> {
    match s.w
    case WStart => if s.mu == Nobody then Some(s.(mu := ByWorker, w := WTest)) else None
    case WTest => Some(s.(w := if s.running || s.slot.Some? then WInner else WLeave))
    case WInner => if s.running && s.slot.None? then Some(s.(mu := Nobody, w := WWait)) else Some(s.(w := WTake))
    case WWait => None
    case WWake => if s.mu == Nobody then Some(s.(mu := ByWorker, w := WInner)) else None
    case WTake => if s.slot.None? then Some(s.(w := WLeave)) else Some(s.(slot := None, w := WBroadcast(s.slot.value)))
    case WBroadcast(j) => Some(s.(c := WakeAll(s.c), w := WUnlock(j)))
    case WUnlock(j) => Some(s.(mu := Nobody, w := WRun(j)))
    case WRun(j) => Some(s.(executed := s.executed + [j], w := WLockJob(j)))
    case WLockJob(j) =>
      if j < |s.jobMu| && s.jobMu[j] == JobFree
      then Some(s.(jobMu := s.jobMu[j := JobByWorker], w := WDone(j))) else None
    case WDone(j) => Some(s.(done := s.done + {j}, w := WSignal(j)))
    case WSignal(j) =>
      Some(s.(c := if j < |s.c| && s.c[j] == CJobWait then s.c[j := CJobWake] else s.c, w := WUnlockJob(j)))
    case WUnlockJob(j) =>
      if j < |s.jobMu| then Some(s.(jobMu := s.jobMu[j := JobFree], w := WRelock)) else None
    case WRelock => if s.mu == Nobody then Some(s.(mu := ByWorker, w := WTest)) else None
    case WLeave => Some(s.(mu := Nobody, w := WExit))
    case WExit => None
  }

  function CallerStep(s: State, i: nat, k: Wake): Option<State>
    requires i < |s.c| == |s.jobMu|
  {
    match s.c[i]
    case CLock => if s.mu == Nobody then Some(s.(mu := ByCaller(i), c := s.c[i := CCheck])) else None
    case CCheck => Some(s.(c := s.c[i := if s.running then CSlot else CRefuse]))
    case CRefuse => Some(s.(mu := Nobody, c := s.c[i := CReject]))
    case CSlot =>
      if s.slot.Some? then Some(s.(mu := Nobody, c := s.c[i := CWait])) else Some(s.(c := s.c[i := CPost]))
    case CWait => None
    case CWake => if s.mu == Nobody then Some(s.(mu := ByCaller(i), c := s.c[i := CSlot])) else None
    case CPost => Some(s.(slot := Some(i), posted := s.posted + [i], c := s.c[i := CSignal]))
    case CSignal => Some(SignalCond(s.(c := s.c[i := CUnlock]), k))
    case CUnlock => Some(s.(mu := Nobody, c := s.c[i := CLockJob]))
    case CLockJob =>
      if s.jobMu[i] == JobFree then Some(s.(jobMu := s.jobMu[i := JobByCaller], c := s.c[i := CTest])) else None
    case CTest =>
      if i in s.done then Some(s.(c := s.c[i := CUnlockJob]))
      else Some(s.(jobMu := s.jobMu[i := JobFree], c := s.c[i := CJobWait]))
    case CJobWait => None
    case CJobWake =>
      if s.jobMu[i] == JobFree then Some(s.(jobMu := s.jobMu[i := JobByCaller], c := s.c[i := CTest])) else None
    case CUnlockJob => Some(s.(jobMu := s.jobMu[i := JobFree], c := s.c[i := CDestroy]))
    case CDestroy => Some(s.(c := s.c[i := CReturn]))
    case CReturn => None
    case CReject => None
  }

  /** Past the check of line 102 and not posted yet. */
  predicate IsLate(c: CallerPc) {
    c == CSlot || c == CWait || c == CWake || c == CPost
  }

  function LateCallers(c: seq<CallerPc>): set<nat> {
    set i | 0 <= i < |c| && IsLate(c[i])
  }

  function StopperStep(s: State, k: Wake): Option<State> {
    match s.stop
    case SIdle => None
    case SLock => if s.mu == Nobody then Some(s.(mu := ByStopper, stop := SClear)) else None
    case SClear => Some(s.(running := false, stop := SSignal, atStop := s.posted, late := LateCallers(s.c)))
    case SSignal => Some(SignalCond(s.(stop := SUnlock), k))
    case SUnlock => Some(s.(mu := Nobody, stop := SJoin))
    case SJoin => if s.w == WExit then Some(s.(stop := SDone)) else None
    case SDone => None
  }

  /** One step, None when it is not enabled. */
  ghost function Do(s: State, step: Step): Option<State> {
    if |s.c| != |s.jobMu| then None else
    match step
    case OfWorker => WorkerStep(s)
    case OfCaller(i, k) =>
      if i < |s.c| && (s.c[i] == CSignal ==> GoodWake(s, k)) then CallerStep(s, i, k) else None
    case OfStopper(k) => if s.stop == SSignal ==> GoodWake(s, k) then StopperStep(s, k) else None
    case Call => Some(s.(c := s.c + [CLock], jobMu := s.jobMu + [JobFree]))
    case Shutdown => if s.stop == SIdle then Some(s.(stop := SLock)) else None
    case SpuriousWorker => if s.w == WWait then Some(s.(w := WWake)) else None
    case SpuriousCaller(i) => if i < |s.c| && s.c[i] == CWait then Some(s.(c := s.c[i := CWake])) else None
    case SpuriousJob(i) => if i < |s.c| && s.c[i] == CJobWait then Some(s.(c := s.c[i := CJobWake])) else None
  }

  // ----- The invariant -----

  predicate WorkerHolds(w: WorkerPc) {
    w == WTest || w == WInner || w == WTake || w.WBroadcast? || w.WUnlock? || w == WLeave
  }

  predicate CallerHolds(c: CallerPc) {
    c == CCheck || c == CRefuse || c == CSlot || c == CPost || c == CSignal || c == CUnlock
  }

  predicate StopperHolds(p: StopperPc) {
    p == SClear || p == SSignal || p == SUnlock
  }

  predicate HoldsJob(w: WorkerPc, i: nat) {
    w == WDone(i) || w == WSignal(i) || w == WUnlockJob(i)
  }

  /** In a wait set, or woken and not yet back. */
  predicate Sleeps(c: CallerPc) {
    c == CWait || c == CWake || c == CJobWait || c == CJobWake
  }

  /** Every number stands for a caller. */
  predicate Named(s: State) {
    && |s.c| == |s.jobMu|
    && (s.mu.ByCaller? ==> s.mu.id < |s.c|)
    && (s.slot.Some? ==> s.slot.value < |s.c|)
    && (JobOf(s.w).Some? ==> JobOf(s.w).value < |s.c|)
  }

  /** s_mu is held by whoever is between lock and unlock. */
  predicate MuHeld(s: State) {
    && (s.mu == ByWorker <==> WorkerHolds(s.w))
    && (s.mu == ByStopper <==> StopperHolds(s.stop))
    && (forall i :: 0 <= i < |s.c| ==> (CallerHolds(s.c[i]) <==> s.mu == ByCaller(i)))
  }

  /** So is every job mutex. */
  predicate JobsHeld(s: State)
    requires |s.c| == |s.jobMu|
  {
    && (forall i :: 0 <= i < |s.c| ==> (s.jobMu[i] == JobByCaller <==> s.c[i] == CTest || s.c[i] == CUnlockJob))
    && (forall i :: 0 <= i < |s.c| ==> (s.jobMu[i] == JobByWorker <==> HoldsJob(s.w, i)))
  }

  ghost predicate Locks(s: State) {
    Named(s) && MuHeld(s) && JobsHeld(s)
  }

  predicate HasPosted(c: CallerPc) {
    c == CSignal || c == CUnlock || Awaits(c) || Leaves(c)
  }

  /** Posted, and possibly not done yet. */
  predicate Awaits(c: CallerPc) {
    c == CLockJob || c == CTest || c == CJobWait || c == CJobWake
  }

  /** Has seen its done flag. */
  predicate Leaves(c: CallerPc) {
    c == CUnlockJob || c == CDestroy || c == CReturn
  }

  /** The worker's current job. */
  function JobOf(w: WorkerPc): Option<nat> {
    match w
    case WBroadcast(j) => Some(j)
    case WUnlock(j) => Some(j)
    case WRun(j) => Some(j)
    case WLockJob(j) => Some(j)
    case WDone(j) => Some(j)
    case WSignal(j) => Some(j)
    case WUnlockJob(j) => Some(j)
    case _ => None
  }

  /** Taken from the slot and not run yet. */
  function InHand(w: WorkerPc): seq<nat> {
    if w.WBroadcast? || w.WUnlock? || w.WRun? then [w.job] else []
  }

  function InSlot(s: State): seq<nat> {
    if s.slot.Some? then [s.slot.value] else []
  }

  ghost predicate Distinct(q: seq<nat>) {
    forall i, j :: 0 <= i < j < |q| ==> q[i] != q[j]
  }

  /** Jobs are run in the order they were posted, each once. */
  ghost predicate Logs(s: State) {
    && s.posted == s.executed + InHand(s.w) + InSlot(s)
    && Distinct(s.posted)
    && (forall i :: i in s.posted ==> i < |s.c| && HasPosted(s.c[i]))
    && (forall i :: 0 <= i < |s.c| && HasPosted(s.c[i]) ==> i in s.posted)
  }

  /** A done flag is set exactly for the jobs that ran and that the worker has marked; a caller
      leaves only after that, and not while the worker still works on its job. */
  ghost predicate Jobs(s: State) {
    && (forall i :: i in s.done ==> i in s.executed)
    && (forall i :: i in s.executed ==> i in s.done || s.w == WLockJob(i) || s.w == WDone(i))
    && (forall i :: 0 <= i < |s.c| && Leaves(s.c[i]) ==> i in s.done && JobOf(s.w) != Some(i))
    && (forall i :: 0 <= i < |s.c| && s.c[i] == CJobWait && i in s.done ==> s.w == WSignal(i))
    && ((s.w.WLockJob? || s.w.WDone?) ==> s.w.job in s.executed && s.w.job !in s.done)
    && ((s.w.WSignal? || s.w.WUnlockJob?) ==> s.w.job in s.done)
  }

  /** Nobody waits for what has already happened. */
  ghost predicate Waits(s: State) {
    && (s.slot.None? && !s.w.WBroadcast? ==> forall i :: 0 <= i < |s.c| ==> s.c[i] != CWait)
    && (forall i :: 0 <= i < |s.c| && s.c[i] == CPost ==> s.slot.None?)
    && (forall i :: 0 <= i < |s.c| && s.c[i] == CSignal ==>
          s.slot == Some(i) && forall k :: 0 <= k < |s.c| ==> s.c[k] != CWait)
    && (s.w == WWait && s.slot.Some? ==> s.slot.value < |s.c| && s.c[s.slot.value] == CSignal)
    && (s.w == WWait && !s.running ==> s.stop == SSignal)
    && (s.w == WTake ==> !s.running || s.slot.Some?)
    && (s.w.WBroadcast? ==> s.slot.None?)
  }

  /** Shutdown: what was posted before s_running was cleared is run before the worker exits, and
      only late callers post afterwards. */
  ghost predicate Stops(s: State) {
    && (s.running <==> s.stop == SIdle || s.stop == SLock || s.stop == SClear)
    && (s.stop == SDone ==> s.w == WExit)
    && (s.stop == SSignal || s.stop == SUnlock ==> s.w != WExit)
    && (s.w == WLeave ==> !s.running && s.slot.None?)
    && (s.w == WExit ==> !s.running)
    && (!s.running ==> s.atStop <= s.posted)
    && (!s.running ==> forall k :: |s.atStop| <= k < |s.posted| ==> s.posted[k] in s.late)
    && (!s.running ==> forall i :: 0 <= i < |s.c| && IsLate(s.c[i]) ==> i in s.late)
    && ((s.w == WLeave || s.w == WExit) ==> |s.atStop| <= |s.executed|)
  }

  ghost predicate Inv(s: State) {
    Locks(s) && Logs(s) && Jobs(s) && Waits(s) && Stops(s)
  }

  lemma InitInv()
    ensures Inv(INIT)
  {
  }

  lemma LocksByJobLock(s: State)
    requires Locks(s) && (s.w.WLockJob? || s.w.WUnlockJob?)
    requires WorkerStep(s).Some?
    ensures Locks(WorkerStep(s).value)
  {
    var t := WorkerStep(s).value;
    var j := s.w.job;
    assert t.mu == s.mu && t.c == s.c && t.slot == s.slot && t.stop == s.stop;
    assert t.jobMu == s.jobMu[j := t.jobMu[j]];
    assert if s.w.WLockJob? then s.jobMu[j] == JobFree && t.jobMu[j] == JobByWorker && t.w == WDone(j)
           else t.jobMu[j] == JobFree && t.w == WRelock;
    hide WorkerStep;
    assert MuHeld(t);
    assert JobsHeld(t);
  }

  /** A step that moves no lock, and nobody but sleepers. */
  lemma LocksUnmoved(s: State, t: State)
    requires Locks(s) && |t.c| == |s.c| && t.jobMu == s.jobMu && t.mu == s.mu && t.slot == s.slot
    requires StopperHolds(t.stop) == StopperHolds(s.stop) && WorkerHolds(t.w) == WorkerHolds(s.w)
    requires (forall i: nat :: HoldsJob(t.w, i) == HoldsJob(s.w, i)) && (JobOf(t.w).None? || JobOf(t.w) == JobOf(s.w))
    requires forall i :: 0 <= i < |s.c| ==> t.c[i] == s.c[i] || (Sleeps(s.c[i]) && Sleeps(t.c[i]))
    ensures Locks(t)
  {
    hide WorkerHolds, StopperHolds, HoldsJob, JobOf;
    assert MuHeld(t);
    assert JobsHeld(t);
  }

  lemma WorkerWakesSleepers(s: State)
    requires s.w.WBroadcast? || s.w.WSignal?
    ensures var t := WorkerStep(s).value;
            && |t.c| == |s.c| && t.jobMu == s.jobMu && t.mu == s.mu && t.slot == s.slot && t.stop == s.stop
            && t.w == (if s.w.WBroadcast? then WUnlock(s.w.job) else WUnlockJob(s.w.job))
            && forall i :: 0 <= i < |s.c| ==> t.c[i] == s.c[i] || (Sleeps(s.c[i]) && Sleeps(t.c[i]))
  {
  }

  lemma LocksByWaking(s: State)
    requires Locks(s) && (s.w.WBroadcast? || s.w.WSignal?)
    ensures Locks(WorkerStep(s).value)
  {
    WorkerWakesSleepers(s);
    hide WorkerStep, Locks, Sleeps;
    LocksUnmoved(s, WorkerStep(s).value);
  }

  /** The worker's steps on s_mu alone. */
  lemma WorkerMu(s: State)
    requires WorkerStep(s).Some? && (s.mu == ByWorker <==> WorkerHolds(s.w))
    requires !s.w.WLockJob? && !s.w.WUnlockJob? && !s.w.WBroadcast? && !s.w.WSignal?
    ensures var t := WorkerStep(s).value;
            && t.jobMu == s.jobMu && t.stop == s.stop && t.c == s.c && (t.slot == s.slot || t.slot == None)
            && (t.mu == ByWorker <==> WorkerHolds(t.w))
            && (t.mu == s.mu || (s.mu == Nobody && t.mu == ByWorker) || (s.mu == ByWorker && t.mu == Nobody))
            && (forall i: nat :: HoldsJob(t.w, i) == HoldsJob(s.w, i))
            && (JobOf(t.w).None? || JobOf(t.w) == JobOf(s.w) || JobOf(t.w) == s.slot)
  {
  }

  lemma LocksByWorker(s: State)
    requires Locks(s)
    requires WorkerStep(s).Some?
    ensures Locks(WorkerStep(s).value)
  {
    if s.w.WLockJob? || s.w.WUnlockJob? {
      LocksByJobLock(s);
    } else if s.w.WBroadcast? || s.w.WSignal? {
      LocksByWaking(s);
    } else {
      WorkerMu(s);
      hide WorkerStep, WorkerHolds, HoldsJob, JobOf;
      assert MuHeld(WorkerStep(s).value);
      assert JobsHeld(WorkerStep(s).value);
    }
  }

  lemma CallerMu(s: State, i: nat, k: Wake)
    requires i < |s.c| == |s.jobMu| && CallerStep(s, i, k).Some? && (CallerHolds(s.c[i]) <==> s.mu == ByCaller(i))
    ensures var t := CallerStep(s, i, k).value;
            && |t.c| == |s.c| && |t.jobMu| == |s.jobMu|
            && (t.mu == s.mu || (s.mu == Nobody && t.mu == ByCaller(i)) || (s.mu == ByCaller(i) && t.mu == Nobody))
            && (CallerHolds(t.c[i]) <==> t.mu == ByCaller(i))
            && (t.slot == s.slot || t.slot == Some(i))
  {
  }

  lemma CallerJobMu(s: State, i: nat, k: Wake)
    requires i < |s.c| == |s.jobMu| && CallerStep(s, i, k).Some?
    requires s.jobMu[i] == JobByCaller <==> s.c[i] == CTest || s.c[i] == CUnlockJob
    ensures var t := CallerStep(s, i, k).value;
            && |t.c| == |t.jobMu| == |s.c| && t.jobMu == s.jobMu[i := t.jobMu[i]]
            && (t.jobMu[i] == JobByCaller <==> t.c[i] == CTest || t.c[i] == CUnlockJob)
            && (t.jobMu[i] == JobByWorker <==> s.jobMu[i] == JobByWorker)
  {
  }

  /** How a caller's step moves the locks. */
  lemma CallerLocks(s: State, i: nat, k: Wake)
    requires Locks(s) && i < |s.c| && CallerStep(s, i, k).Some?
    ensures var t := CallerStep(s, i, k).value;
            && |t.c| == |t.jobMu| == |s.c|
            && (t.mu == s.mu || (s.mu == Nobody && t.mu == ByCaller(i)) || (s.mu == ByCaller(i) && t.mu == Nobody))
            && (CallerHolds(t.c[i]) <==> t.mu == ByCaller(i))
            && (forall j :: 0 <= j < |s.c| && j != i ==> t.jobMu[j] == s.jobMu[j])
            && (t.jobMu[i] == JobByCaller <==> t.c[i] == CTest || t.c[i] == CUnlockJob)
            && (t.jobMu[i] == JobByWorker <==> s.jobMu[i] == JobByWorker)
            && (t.slot == s.slot || t.slot == Some(i))
  {
    hide CallerStep, CallerHolds;
    CallerMu(s, i, k);
    CallerJobMu(s, i, k);
  }

  lemma LocksByCaller(s: State, i: nat, k: Wake)
    requires Locks(s)
    requires Do(s, OfCaller(i, k)).Some?
    ensures Locks(Do(s, OfCaller(i, k)).value)
  {
    CallerLocks(s, i, k);
    OnlyCallerMoves(s, i, k);
    LocksFrame(s, CallerStep(s, i, k).value, i);
  }

  lemma MuFrame(s: State, t: State, i: nat)
    requires Locks(s) && i < |s.c| && |t.c| == |t.jobMu| == |s.c|
    requires t.mu == s.mu || (s.mu == Nobody && t.mu == ByCaller(i)) || (s.mu == ByCaller(i) && t.mu == Nobody)
    requires CallerHolds(t.c[i]) <==> t.mu == ByCaller(i)
    requires forall j :: 0 <= j < |s.c| && j != i ==>
               t.jobMu[j] == s.jobMu[j] && (t.c[j] == s.c[j] || (s.c[j] == CWait && t.c[j] == CWake))
    requires t.jobMu[i] == JobByCaller <==> t.c[i] == CTest || t.c[i] == CUnlockJob
    requires t.jobMu[i] == JobByWorker <==> s.jobMu[i] == JobByWorker
    requires t.slot == s.slot || t.slot == Some(i)
    requires t.stop == s.stop && (t.w == s.w || (s.w == WWait && t.w == WWake))
    ensures MuHeld(t)
  {
    hide JobsHeld;
  }

  lemma JobFrame(s: State, t: State, i: nat)
    requires Locks(s) && i < |s.c| && |t.c| == |t.jobMu| == |s.c|
    requires t.mu == s.mu || (s.mu == Nobody && t.mu == ByCaller(i)) || (s.mu == ByCaller(i) && t.mu == Nobody)
    requires CallerHolds(t.c[i]) <==> t.mu == ByCaller(i)
    requires forall j :: 0 <= j < |s.c| && j != i ==>
               t.jobMu[j] == s.jobMu[j] && (t.c[j] == s.c[j] || (s.c[j] == CWait && t.c[j] == CWake))
    requires t.jobMu[i] == JobByCaller <==> t.c[i] == CTest || t.c[i] == CUnlockJob
    requires t.jobMu[i] == JobByWorker <==> s.jobMu[i] == JobByWorker
    requires t.slot == s.slot || t.slot == Some(i)
    requires t.stop == s.stop && (t.w == s.w || (s.w == WWait && t.w == WWake))
    ensures JobsHeld(t)
  {
    hide MuHeld;
  }

  lemma LocksFrame(s: State, t: State, i: nat)
    requires Locks(s) && i < |s.c| && |t.c| == |t.jobMu| == |s.c|
    requires t.mu == s.mu || (s.mu == Nobody && t.mu == ByCaller(i)) || (s.mu == ByCaller(i) && t.mu == Nobody)
    requires CallerHolds(t.c[i]) <==> t.mu == ByCaller(i)
    requires forall j :: 0 <= j < |s.c| && j != i ==>
               t.jobMu[j] == s.jobMu[j] && (t.c[j] == s.c[j] || (s.c[j] == CWait && t.c[j] == CWake))
    requires t.jobMu[i] == JobByCaller <==> t.c[i] == CTest || t.c[i] == CUnlockJob
    requires t.jobMu[i] == JobByWorker <==> s.jobMu[i] == JobByWorker
    requires t.slot == s.slot || t.slot == Some(i)
    requires t.stop == s.stop && (t.w == s.w || (s.w == WWait && t.w == WWake))
    ensures Locks(t)
  {
    MuFrame(s, t, i);
    JobFrame(s, t, i);
    hide MuHeld, JobsHeld;
  }

  /** The stopper's signal and its other steps that move no lock. */
  lemma StopperWakesSleepers(s: State, k: Wake)
    requires StopperStep(s, k).Some? && s.stop != SLock && s.stop != SUnlock
    ensures var t := StopperStep(s, k).value;
            && |t.c| == |s.c| && t.jobMu == s.jobMu && t.mu == s.mu && t.slot == s.slot
            && StopperHolds(t.stop) == StopperHolds(s.stop) && (t.w == s.w || (s.w == WWait && t.w == WWake))
            && forall i :: 0 <= i < |s.c| ==> t.c[i] == s.c[i] || (Sleeps(s.c[i]) && Sleeps(t.c[i]))
  {
  }

  lemma LocksByStopper(s: State, k: Wake)
    requires Locks(s)
    requires Do(s, OfStopper(k)).Some?
    ensures Locks(Do(s, OfStopper(k)).value)
  {
    if s.stop != SLock && s.stop != SUnlock {
      StopperWakesSleepers(s, k);
      hide StopperStep, Locks, Sleeps, StopperHolds;
      LocksUnmoved(s, Do(s, OfStopper(k)).value);
    }
  }

  lemma LocksByCall(s: State)
    requires Locks(s)
    ensures Locks(Do(s, Call).value)
  {
  }

  lemma LocksByWakeUp(s: State, step: Step)
    requires Locks(s)
    requires step == Shutdown || step == SpuriousWorker || step.SpuriousCaller? || step.SpuriousJob?
    requires Do(s, step).Some?
    ensures Locks(Do(s, step).value)
  {
    hide Locks;
    LocksUnmoved(s, Do(s, step).value);
  }

  lemma HandIsFresh(s: State)
    requires Logs(s) && InHand(s.w) != []
    ensures s.w.job !in s.executed && s.w.job < |s.c| && HasPosted(s.c[s.w.job])
  {
    var n := |s.executed|;
    assert s.posted[n] == s.w.job && s.w.job in s.posted;
    forall k | 0 <= k < n
      ensures s.executed[k] != s.w.job
    {
      assert s.posted[k] == s.executed[k];
    }
  }

  /** A step that leaves the logs, the slot and everybody's having posted alone keeps Logs. */
  lemma LogsFrame(s: State, t: State)
    requires Logs(s)
    requires t.posted == s.posted && t.executed == s.executed && t.slot == s.slot && InHand(t.w) == InHand(s.w)
    requires |s.c| <= |t.c|
    requires forall i :: 0 <= i < |t.c| ==> HasPosted(t.c[i]) == (i < |s.c| && HasPosted(s.c[i]))
    ensures Logs(t)
  {
  }

  /** What the worker's steps do to the logs. */
  lemma WorkerLogs(s: State)
    requires WorkerStep(s).Some?
    ensures var t := WorkerStep(s).value;
            && |t.c| == |s.c| && t.posted == s.posted
            && (forall i :: 0 <= i < |s.c| ==> HasPosted(t.c[i]) == HasPosted(s.c[i]))
            && (if s.w == WTake && s.slot.Some? then
                  t.executed == s.executed && t.slot.None? && InHand(s.w) == [] && InHand(t.w) == [s.slot.value]
                else if s.w.WRun? then t.executed == s.executed + [s.w.job] && t.slot == s.slot && InHand(t.w) == []
                else t.executed == s.executed && t.slot == s.slot && InHand(t.w) == InHand(s.w))
  {
  }

  lemma LogsByWorker(s: State)
    requires Logs(s)
    requires WorkerStep(s).Some?
    ensures Logs(WorkerStep(s).value)
  {
    var t := WorkerStep(s).value;
    WorkerLogs(s);
    hide WorkerStep;
    if s.w == WTake && s.slot.Some? {
      assert s.executed + [] + [s.slot.value] == s.executed + [s.slot.value] + [];
    } else if s.w.WRun? {
      assert s.executed + [s.w.job] + InSlot(s) == (s.executed + [s.w.job]) + [] + InSlot(s);
    } else {
      LogsFrame(s, t);
    }
  }

  lemma LogsByPost(s: State, i: nat, k: Wake)
    requires Locks(s) && Logs(s) && Waits(s)
    requires i < |s.c| && s.c[i] == CPost
    ensures Logs(CallerStep(s, i, k).value)
  {
    assert s.posted == s.executed + InHand(s.w);
    var t := CallerStep(s, i, k).value;
    assert t.posted == t.executed + InHand(t.w) + [i];
  }

  lemma SignalMovesWaiters(s: State, i: nat, k: Wake)
    requires i < |s.c| == |s.jobMu| && s.c[i] == CSignal
    ensures var t := CallerStep(s, i, k).value;
            && |t.c| == |s.c| && t.c[i] == CUnlock
            && (forall j :: 0 <= j < |s.c| && j != i ==> t.c[j] == s.c[j] || (s.c[j] == CWait && t.c[j] == CWake))
            && (t.w == s.w || (s.w == WWait && t.w == WWake))
            && t == s.(c := t.c, w := t.w)
  {
  }

  lemma CallerMovesAlone(s: State, i: nat, k: Wake)
    requires i < |s.c| == |s.jobMu| && CallerStep(s, i, k).Some? && s.c[i] != CSignal
    ensures var t := CallerStep(s, i, k).value;
            && t.c == s.c[i := t.c[i]] && t.w == s.w && t.stop == s.stop && t.running == s.running
            && t.executed == s.executed && t.done == s.done && t.atStop == s.atStop && t.late == s.late
  {
  }

  lemma OnlyPostPosts(s: State, i: nat, k: Wake)
    requires i < |s.c| == |s.jobMu| && CallerStep(s, i, k).Some? && s.c[i] != CSignal && s.c[i] != CPost
    ensures var t := CallerStep(s, i, k).value;
            HasPosted(t.c[i]) == HasPosted(s.c[i]) && t.slot == s.slot && t.posted == s.posted
  {
  }

  /** A caller's step moves nobody else, except that a signal may wake waiters of s_cond. */
  lemma OnlyCallerMoves(s: State, i: nat, k: Wake)
    requires i < |s.c| == |s.jobMu| && CallerStep(s, i, k).Some?
    ensures var t := CallerStep(s, i, k).value;
            && |t.c| == |s.c|
            && (forall j :: 0 <= j < |s.c| && j != i ==> t.c[j] == s.c[j] || (s.c[j] == CWait && t.c[j] == CWake))
            && (s.c[i] != CSignal ==> forall j :: 0 <= j < |s.c| && j != i ==> t.c[j] == s.c[j])
            && t.executed == s.executed && t.done == s.done && t.stop == s.stop && t.running == s.running
            && t.atStop == s.atStop && t.late == s.late
            && (t.w == s.w || (s.w == WWait && t.w == WWake))
            && (s.c[i] != CPost ==>
                  HasPosted(t.c[i]) == HasPosted(s.c[i]) && t.slot == s.slot && t.posted == s.posted)
  {
    if s.c[i] == CSignal {
      SignalMovesWaiters(s, i, k);
    } else {
      CallerMovesAlone(s, i, k);
      if s.c[i] != CPost {
        OnlyPostPosts(s, i, k);
      }
    }
    hide CallerStep;
  }

  lemma LogsByCaller(s: State, i: nat, k: Wake)
    requires Locks(s) && Logs(s) && Waits(s)
    requires Do(s, OfCaller(i, k)).Some?
    ensures Logs(Do(s, OfCaller(i, k)).value)
  {
    if s.c[i] == CPost {
      LogsByPost(s, i, k);
    } else {
      OnlyCallerMoves(s, i, k);
      LogsFrame(s, CallerStep(s, i, k).value);
    }
  }

  lemma LogsByStopper(s: State, k: Wake)
    requires Locks(s) && Logs(s)
    requires Do(s, OfStopper(k)).Some?
    ensures Logs(Do(s, OfStopper(k)).value)
  {
    LogsFrame(s, StopperStep(s, k).value);
  }

  lemma LogsByCall(s: State)
    requires Locks(s) && Logs(s)
    ensures Logs(Do(s, Call).value)
  {
    LogsFrame(s, Do(s, Call).value);
  }

  lemma LogsByWakeUp(s: State, step: Step)
    requires Locks(s) && Logs(s)
    requires step == Shutdown || step == SpuriousWorker || step.SpuriousCaller? || step.SpuriousJob?
    requires Do(s, step).Some?
    ensures Logs(Do(s, step).value)
  {
    hide Locks;
    LogsFrame(s, Do(s, step).value);
  }

  lemma SlotIsFresh(s: State)
    requires Logs(s) && s.slot.Some?
    ensures s.slot.value !in s.executed
  {
    var n := |s.posted| - 1;
    assert s.posted[n] == s.slot.value;
    forall k | 0 <= k < |s.executed|
      ensures s.executed[k] != s.slot.value
    {
      assert s.posted[k] == s.executed[k];
    }
  }

  lemma JobsByRun(s: State)
    requires Locks(s) && Logs(s) && Jobs(s) && s.w.WRun?
    ensures Jobs(WorkerStep(s).value)
  {
    HandIsFresh(s);
    var t := WorkerStep(s).value;
    assert forall i :: i in t.executed <==> i in s.executed || i == s.w.job;
  }

  lemma JobsByTake(s: State)
    requires Locks(s) && Logs(s) && Jobs(s) && s.w == WTake && s.slot.Some?
    ensures Jobs(WorkerStep(s).value)
  {
    SlotIsFresh(s);
  }

  lemma JobsByMark(s: State)
    requires Locks(s) && Logs(s) && Jobs(s) && (s.w.WDone? || s.w.WSignal?)
    ensures Jobs(WorkerStep(s).value)
  {
  }

  lemma JobsByWorker(s: State)
    requires Locks(s) && Logs(s) && Jobs(s)
    requires WorkerStep(s).Some?
    ensures Jobs(WorkerStep(s).value)
  {
    if s.w.WRun? {
      JobsByRun(s);
    } else if s.w == WTake && s.slot.Some? {
      JobsByTake(s);
    } else if s.w.WDone? || s.w.WSignal? {
      JobsByMark(s);
    } else {
      JobsByMove(s);
    }
  }

  /** The other steps of the worker do not touch a job's flag. */
  lemma JobsByMove(s: State)
    requires Jobs(s) && WorkerStep(s).Some?
    requires !s.w.WRun? && !(s.w == WTake && s.slot.Some?) && !s.w.WDone? && !s.w.WSignal?
    ensures Jobs(WorkerStep(s).value)
  {
    var t := WorkerStep(s).value;
    assert t.done == s.done && t.executed == s.executed && |t.c| == |s.c|;
    assert JobOf(t.w).Some? ==> JobOf(t.w) == JobOf(s.w);
  }

  /** The worker is through with a job whose caller finds it done. */
  lemma DoneJobIsFree(s: State, i: nat)
    requires Locks(s) && Logs(s) && Jobs(s) && i < |s.c| && s.c[i] == CTest && i in s.done
    ensures JobOf(s.w) != Some(i)
  {
    if InHand(s.w) != [] {
      HandIsFresh(s);
    }
  }

  /** A step of caller i alone, up to wake-ups on s_cond. */
  lemma JobsFrame(s: State, t: State, i: nat)
    requires Jobs(s) && i < |s.c| == |t.c|
    requires t.done == s.done && t.executed == s.executed
    requires t.w == s.w || (s.w == WWait && t.w == WWake)
    requires forall j :: 0 <= j < |s.c| && j != i ==> t.c[j] == s.c[j] || (s.c[j] == CWait && t.c[j] == CWake)
    requires Leaves(t.c[i]) ==> i in s.done && JobOf(s.w) != Some(i)
    requires t.c[i] == CJobWait ==> i !in s.done
    ensures Jobs(t)
  {
  }

  /** Only a caller that found its job done leaves, only one that did not waits. */
  lemma CallerJob(s: State, i: nat, k: Wake)
    requires i < |s.c| == |s.jobMu| && CallerStep(s, i, k).Some?
    ensures var p := CallerStep(s, i, k).value.c[i];
            && (Leaves(p) ==> Leaves(s.c[i]) || (s.c[i] == CTest && i in s.done))
            && (p == CJobWait ==> s.c[i] == CTest && i !in s.done)
  {
  }

  lemma JobsByCaller(s: State, i: nat, k: Wake)
    requires Locks(s) && Logs(s) && Jobs(s)
    requires Do(s, OfCaller(i, k)).Some?
    ensures Jobs(Do(s, OfCaller(i, k)).value)
  {
    OnlyCallerMoves(s, i, k);
    if s.c[i] == CTest && i in s.done {
      DoneJobIsFree(s, i);
    }
    CallerJob(s, i, k);
    JobsFrame(s, CallerStep(s, i, k).value, i);
  }

  /** Nothing but wake-ups on s_cond. */
  lemma JobsUnmoved(s: State, t: State)
    requires Jobs(s) && |s.c| == |t.c|
    requires t.done == s.done && t.executed == s.executed
    requires t.w == s.w || (s.w == WWait && t.w == WWake)
    requires forall j :: 0 <= j < |s.c| ==> t.c[j] == s.c[j] || (s.c[j] == CWait && t.c[j] == CWake)
    ensures Jobs(t)
  {
  }

  lemma JobsByStopper(s: State, k: Wake)
    requires Locks(s) && Jobs(s)
    requires Do(s, OfStopper(k)).Some?
    ensures Jobs(Do(s, OfStopper(k)).value)
  {
    var t := StopperStep(s, k).value;
    JobsUnmoved(s, t);
  }

  lemma JobsByCall(s: State)
    requires Locks(s) && Logs(s) && Jobs(s)
    ensures Jobs(Do(s, Call).value)
  {
  }

  lemma JobsByWakeUp(s: State, step: Step)
    requires Locks(s) && Logs(s) && Jobs(s)
    requires step == Shutdown || step == SpuriousWorker || step.SpuriousCaller? || step.SpuriousJob?
    requires Do(s, step).Some?
    ensures Jobs(Do(s, step).value)
  {
    if step.SpuriousCaller? || step.SpuriousJob? {
      JobsFrame(s, Do(s, step).value, step.id);
    }
  }

  lemma WaitsByQueue(s: State)
    requires Locks(s) && Logs(s) && Waits(s) && Stops(s)
    requires s.w == WTest || s.w == WInner || s.w == WTake || s.w.WBroadcast?
    requires WorkerStep(s).Some?
    ensures Waits(WorkerStep(s).value)
  {
  }

  /** The steps of the worker that do not touch the queue. */
  lemma WorkerElsewhere(s: State)
    requires |s.c| == |s.jobMu| && WorkerStep(s).Some?
    requires s.w != WTest && s.w != WInner && s.w != WTake && !s.w.WBroadcast?
    ensures var t := WorkerStep(s).value;
            && t.slot == s.slot && t.running == s.running && t.stop == s.stop && |t.c| == |s.c|
            && t.w != WWait && t.w != WTake && !t.w.WBroadcast?
            && (forall i :: 0 <= i < |s.c| ==> t.c[i] == s.c[i] || (s.c[i] == CJobWait && t.c[i] == CJobWake))
  {
  }

  lemma WaitsByWorker(s: State)
    requires Locks(s) && Logs(s) && Waits(s) && Stops(s)
    requires WorkerStep(s).Some?
    ensures Waits(WorkerStep(s).value)
  {
    if s.w == WTest || s.w == WInner || s.w == WTake || s.w.WBroadcast? {
      WaitsByQueue(s);
    } else {
      WorkerElsewhere(s);
      hide WorkerStep, Logs;
    }
  }

  lemma WaitsBySignal(s: State, i: nat, k: Wake)
    requires Locks(s) && Waits(s)
    requires Do(s, OfCaller(i, k)).Some? && s.c[i] == CSignal
    ensures Waits(Do(s, OfCaller(i, k)).value)
  {
  }

  lemma WaitsByPost(s: State, i: nat, k: Wake)
    requires Locks(s) && Waits(s)
    requires Do(s, OfCaller(i, k)).Some? && s.c[i] == CPost
    ensures Waits(Do(s, OfCaller(i, k)).value)
  {
  }

  /** When a caller goes to wait, or on to post. */
  lemma CallerQueues(s: State, i: nat, k: Wake)
    requires i < |s.c| == |s.jobMu| && CallerStep(s, i, k).Some? && s.c[i] != CSignal && s.c[i] != CPost
    ensures var t := CallerStep(s, i, k).value;
            && t.w == s.w && t.c[i] != CSignal
            && (t.c[i] == CWait ==> s.c[i] == CSlot && s.slot.Some?)
            && (t.c[i] == CPost ==> s.slot.None?)
  {
  }

  lemma SlotCallerHolds(s: State, i: nat)
    requires Locks(s) && i < |s.c|
    ensures s.c[i] == CSlot ==> s.mu == ByCaller(i)
  {
  }

  lemma WaitsByCaller(s: State, i: nat, k: Wake)
    requires Locks(s) && Waits(s)
    requires Do(s, OfCaller(i, k)).Some?
    ensures Waits(Do(s, OfCaller(i, k)).value)
  {
    if s.c[i] == CSignal {
      WaitsBySignal(s, i, k);
    } else if s.c[i] == CPost {
      WaitsByPost(s, i, k);
    } else {
      OnlyCallerMoves(s, i, k);
      CallerQueues(s, i, k);
      SlotCallerHolds(s, i);
      WaitsFrame(s, CallerStep(s, i, k).value, i);
      hide CallerStep, Waits, Locks;
    }
  }

  lemma WaitsFrame(s: State, t: State, i: nat)
    requires Locks(s) && Waits(s) && i < |s.c| == |t.c|
    requires t.slot == s.slot && t.w == s.w && t.running == s.running && t.stop == s.stop
    requires forall j :: 0 <= j < |s.c| && j != i ==> t.c[j] == s.c[j]
    requires s.c[i] != CSignal && t.c[i] != CSignal && (t.c[i] == CPost ==> s.slot.None?)
    requires t.c[i] == CWait ==> s.slot.Some? && s.mu == ByCaller(i)
    ensures Waits(t)
  {
  }

  lemma WaitsByStopper(s: State, k: Wake)
    requires Locks(s) && Logs(s) && Waits(s) && Stops(s)
    requires Do(s, OfStopper(k)).Some?
    ensures Waits(Do(s, OfStopper(k)).value)
  {
  }

  lemma WaitsByCall(s: State)
    requires Locks(s) && Waits(s)
    ensures Waits(Do(s, Call).value)
  {
  }

  lemma WaitsByWakeUp(s: State, step: Step)
    requires Locks(s) && Waits(s)
    requires step == Shutdown || step == SpuriousWorker || step.SpuriousCaller? || step.SpuriousJob?
    requires Do(s, step).Some?
    ensures Waits(Do(s, step).value)
  {
  }

  lemma WorkerKeepsLate(s: State)
    requires |s.c| == |s.jobMu| && WorkerStep(s).Some?
    ensures var t := WorkerStep(s).value;
            && |t.c| == |s.c| && (forall i :: 0 <= i < |s.c| ==> IsLate(t.c[i]) == IsLate(s.c[i]))
            && t.posted == s.posted && t.late == s.late && t.atStop == s.atStop
            && t.running == s.running && t.stop == s.stop && s.executed <= t.executed
  {
  }

  /** When the worker makes for the exit. */
  lemma WorkerLeaves(s: State)
    requires |s.c| == |s.jobMu| && WorkerStep(s).Some? && (s.w == WTake ==> !s.running || s.slot.Some?)
    ensures var t := WorkerStep(s).value;
            && (t.w == WLeave ==> !s.running && s.slot.None? && t.slot.None? && InHand(s.w) == [])
            && (t.w == WExit ==> s.w == WLeave) && s.w != WExit
  {
  }

  /** A step that leaves posts, flags and lateness alone. */
  lemma StopsFrame(s: State, t: State)
    requires Stops(s) && t.posted == s.posted && t.late == s.late && t.atStop == s.atStop && s.executed <= t.executed
    requires t.running == s.running && (t.stop == s.stop || (s.stop == SIdle && t.stop == SLock))
    requires forall i :: 0 <= i < |t.c| && IsLate(t.c[i]) ==> i < |s.c| && IsLate(s.c[i])
    requires t.w == WLeave ==> !t.running && t.slot.None? && |t.atStop| <= |t.executed|
    requires t.w == WExit ==> s.w == WExit || (s.w == WLeave && !StopperHolds(s.stop))
    requires s.w == WExit ==> t.w == WExit
    ensures Stops(t)
  {
  }

  lemma StopsByWorker(s: State)
    requires Locks(s) && Logs(s) && Waits(s) && Stops(s)
    requires Do(s, OfWorker).Some?
    ensures Stops(Do(s, OfWorker).value)
  {
    var t := WorkerStep(s).value;
    assert s.w == WLeave ==> !StopperHolds(s.stop);
    hide Locks;
    WorkerKeepsLate(s);
    WorkerLeaves(s);
    hide WorkerStep, Waits;
    assert t.w == WLeave ==> s.posted == s.executed + [] + [] == s.executed;
    hide Logs;
    StopsFrame(s, t);
  }

  /** After s_running was cleared a caller can only post if it was already past the check. */
  lemma CallerKeepsLate(s: State, i: nat, k: Wake)
    requires i < |s.c| == |s.jobMu| && CallerStep(s, i, k).Some?
    ensures var t := CallerStep(s, i, k).value;
            && i < |t.c| && (IsLate(t.c[i]) && !s.running ==> IsLate(s.c[i]))
            && (s.c[i] == CPost ==> t.posted == s.posted + [i] && t.slot == Some(i) && t.w == s.w && !IsLate(t.c[i]))
  {
  }

  lemma StopsByPost(s: State, t: State, i: nat)
    requires Stops(s) && i < |s.c| == |t.c| && s.c[i] == CPost && s.w != WLeave
    requires t.posted == s.posted + [i] && t.late == s.late && t.atStop == s.atStop && t.executed == s.executed
    requires t.running == s.running && t.stop == s.stop && t.w == s.w
    requires forall j :: 0 <= j < |s.c| && IsLate(t.c[j]) && !s.running ==> IsLate(s.c[j])
    ensures Stops(t)
  {
  }

  lemma StopsByCaller(s: State, i: nat, k: Wake)
    requires Locks(s) && Stops(s) && Waits(s)
    requires Do(s, OfCaller(i, k)).Some?
    ensures Stops(Do(s, OfCaller(i, k)).value)
  {
    hide Waits;
    var t := CallerStep(s, i, k).value;
    OnlyCallerMoves(s, i, k);
    CallerKeepsLate(s, i, k);
    assert s.c[i] == CPost ==> s.w != WLeave;
    hide CallerStep, Locks;
    if s.c[i] == CPost {
      StopsByPost(s, t, i);
    } else {
      StopsByOther(s, t, i);
    }
  }

  lemma StopsByOther(s: State, t: State, i: nat)
    requires Stops(s) && i < |s.c| == |t.c| && t.posted == s.posted && t.late == s.late && t.atStop == s.atStop
    requires t.executed == s.executed && t.running == s.running && t.stop == s.stop && t.slot == s.slot
    requires t.w == s.w || (s.w == WWait && t.w == WWake)
    requires forall j :: 0 <= j < |s.c| && IsLate(t.c[j]) && !s.running ==> IsLate(s.c[j])
    ensures Stops(t)
  {
  }

  lemma StopsByClear(s: State, k: Wake)
    requires Stops(s) && s.stop == SClear
    ensures Stops(StopperStep(s, k).value)
  {
    var t := StopperStep(s, k).value;
    assert t == s.(running := false, stop := SSignal, atStop := s.posted, late := LateCallers(s.c));
    assert forall i :: 0 <= i < |s.c| && IsLate(s.c[i]) ==> i in t.late;
  }

  lemma StopsBySignal(s: State, k: Wake)
    requires Stops(s) && s.stop == SSignal
    ensures Stops(StopperStep(s, k).value)
  {
    var t := StopperStep(s, k).value;
    assert |t.c| == |s.c| && forall i :: 0 <= i < |s.c| ==> (IsLate(t.c[i]) <==> IsLate(s.c[i]));
    assert t == s.(stop := SUnlock, c := t.c, w := t.w) && (t.w == s.w || (s.w == WWait && t.w == WWake));
    hide StopperStep;
  }

  lemma StopsByStopper(s: State, k: Wake)
    requires Stops(s) && |s.c| == |s.jobMu|
    requires Do(s, OfStopper(k)).Some?
    ensures Stops(Do(s, OfStopper(k)).value)
  {
    if s.stop == SClear {
      StopsByClear(s, k);
    } else if s.stop == SSignal {
      StopsBySignal(s, k);
    } else {
      assert StopperStep(s, k).value == s.(mu := StopperStep(s, k).value.mu, stop := StopperStep(s, k).value.stop);
    }
  }

  lemma StopsByCall(s: State)
    requires Stops(s) && |s.c| == |s.jobMu|
    ensures Stops(Do(s, Call).value)
  {
    StopsFrame(s, Do(s, Call).value);
  }

  lemma StopsByWakeUp(s: State, step: Step)
    requires Stops(s)
    requires step == Shutdown || step == SpuriousWorker || step.SpuriousCaller? || step.SpuriousJob?
    requires Do(s, step).Some?
    ensures Stops(Do(s, step).value)
  {
    StopsFrame(s, Do(s, step).value);
  }

  lemma InvStep(s: State, step: Step)
    requires Inv(s) && Do(s, step).Some?
    ensures Inv(Do(s, step).value)
  {
    match step
    case OfWorker =>
      LocksByWorker(s); LogsByWorker(s); JobsByWorker(s); WaitsByWorker(s); StopsByWorker(s);
    case OfCaller(i, k) =>
      LocksByCaller(s, i, k); LogsByCaller(s, i, k); JobsByCaller(s, i, k); WaitsByCaller(s, i, k);
      StopsByCaller(s, i, k);
    case OfStopper(k) =>
      LocksByStopper(s, k); LogsByStopper(s, k); JobsByStopper(s, k); WaitsByStopper(s, k); StopsByStopper(s, k);
    case Call =>
      LocksByCall(s); LogsByCall(s); JobsByCall(s); WaitsByCall(s); StopsByCall(s);
    case _ =>
      LocksByWakeUp(s, step); LogsByWakeUp(s, step); JobsByWakeUp(s, step); WaitsByWakeUp(s, step);
      StopsByWakeUp(s, step);
  }

  /** The outcome of an interleaving, None if one of its steps is not enabled. */
  ghost function Exec(s: State, steps: seq<Step>): Option<State>
    decreases |steps|
  {
    if steps == [] then Some(s)
    else
      var t := Do(s, steps[0]);
      if t.None? then None else Exec(t.value, steps[1..])
  }

  ghost predicate Reachable(s: State) {
    exists steps :: Exec(INIT, steps) == Some(s)
  }

  lemma {:induction false} InvAlong(s: State, steps: seq<Step>)
    requires Inv(s) && Exec(s, steps).Some?
    ensures Inv(Exec(s, steps).value)
    decreases |steps|
  {
    if steps != [] {
      InvStep(s, steps[0]);
      InvAlong(Do(s, steps[0]).value, steps[1..]);
    }
  }

  lemma ReachableInv(s: State)
    requires Reachable(s)
    ensures Inv(s)
  {
    var steps :| Exec(INIT, steps) == Some(s);
    InitInv();
    InvAlong(INIT, steps);
  }

  lemma ExecCons(s: State, step: Step, rest: seq<Step>)
    requires Do(s, step).Some?
    ensures Exec(s, [step] + rest) == Exec(Do(s, step).value, rest)
  {
    assert ([step] + rest)[1..] == rest;
  }

  lemma {:induction false} ExecJoins(s: State, a: seq<Step>, b: seq<Step>)
    requires Exec(s, a).Some?
    ensures Exec(s, a + b) == Exec(Exec(s, a).value, b)
    decreases |a|
  {
    if a == [] {
      assert a + b == b;
    } else {
      assert (a + b)[1..] == a[1..] + b;
      ExecJoins(Do(s, a[0]).value, a[1..], b);
    }
  }

  // ----- What it means -----

  /** Whenever s_mu is free, an empty slot means that no caller waits for it, and a waiting worker
      means that there is nothing for it to do. */
  lemma NobodyWaitsInVain(s: State)
    requires Reachable(s) && s.mu == Nobody
    ensures s.slot.None? ==> forall i :: 0 <= i < |s.c| ==> s.c[i] != CWait
    ensures s.w == WWait ==> s.slot.None? && s.running
  {
    ReachableInv(s);
  }

  /** The single signals of lines 87 and 113 always reach the worker if it is waiting. */
  lemma SignalsReachWorker(s: State, k: Wake)
    requires Reachable(s) && s.w == WWait && GoodWake(s, k)
    requires s.stop == SSignal || exists i :: 0 <= i < |s.c| && s.c[i] == CSignal
    ensures k.worker
  {
    ReachableInv(s);
    assert k.callers == {};
  }

  predicate Finished(c: CallerPc) {
    c == CReturn || c == CReject
  }

  /** A step taken by a thread that is already there, and not a spurious wake-up. */
  predicate Genuine(step: Step) {
    step.OfWorker? || step.OfCaller? || step.OfStopper?
  }

  ghost predicate Enabled(s: State, step: Step) {
    Do(s, step).Some?
  }

  /** A wake-up that wakes everyone is always a good one. */
  ghost function WakeEverybody(s: State): (k: Wake)
    ensures GoodWake(s, k)
  {
    var ids := set i: nat | 0 <= i < |s.c| && s.c[i] == CWait;
    assert forall i :: 0 <= i < |s.c| && s.c[i] == CWait ==> i in ids;
    Wake(s.w == WWait, ids)
  }

  lemma HolderMoves(s: State) returns (step: Step)
    requires Inv(s) && s.mu != Nobody
    ensures Genuine(step) && Enabled(s, step)
  {
    match s.mu
    case ByWorker => step := OfWorker;
    case ByCaller(i) =>
      step := OfCaller(i, WakeEverybody(s));
      assert CallerHolds(s.c[i]);
    case ByStopper => step := OfStopper(WakeEverybody(s));
  }

  /** Whoever holds a job mutex can move on. */
  lemma JobHolderMoves(s: State, i: nat) returns (step: Step)
    requires Inv(s) && i < |s.c| && s.jobMu[i] != JobFree
    ensures Genuine(step) && Enabled(s, step)
  {
    if s.jobMu[i] == JobByCaller {
      step := OfCaller(i, WakeEverybody(s));
    } else {
      step := OfWorker;
    }
  }

  lemma WorkerMoves(s: State) returns (step: Step)
    requires Inv(s) && s.mu == Nobody && s.w != WWait && s.w != WExit
    ensures Genuine(step) && Enabled(s, step)
  {
    if s.w.WLockJob? && s.jobMu[s.w.job] != JobFree {
      step := JobHolderMoves(s, s.w.job);
    } else {
      step := OfWorker;
    }
  }

  lemma LateIsNotEmpty(posted: seq<nat>, n: nat, late: set<nat>)
    requires n < |posted| && forall k :: n <= k < |posted| ==> posted[k] in late
    ensures late != {}
  {
    assert posted[n] in late;
  }

  /** Once the worker is gone every posted job has run, unless a late caller posted after it. */
  lemma NothingLeftBehind(s: State)
    requires Inv(s) && s.w == WExit && s.late == {}
    ensures s.posted == s.executed && s.slot.None?
  {
    if |s.posted| > |s.atStop| {
      LateIsNotEmpty(s.posted, |s.atStop|, s.late);
    }
  }

  lemma PostedJobsAreDone(s: State, i: nat)
    requires Inv(s) && s.posted == s.executed && (s.w == WWait || s.w == WExit)
    requires i < |s.c| && HasPosted(s.c[i])
    ensures i in s.done && s.c[i] != CJobWait
  {
    assert i in s.posted;
  }

  /** With s_mu free and the worker idle or gone, a call all of whose posts were served moves on. */
  lemma CallerMoves(s: State, i: nat) returns (step: Step)
    requires Inv(s) && s.mu == Nobody && (s.w == WWait || s.w == WExit)
    requires s.posted == s.executed && s.slot.None?
    requires i < |s.c| && !Finished(s.c[i])
    ensures Genuine(step) && Enabled(s, step)
  {
    if (s.c[i] == CLockJob || s.c[i] == CJobWake) && s.jobMu[i] != JobFree {
      step := JobHolderMoves(s, i);
    } else {
      if HasPosted(s.c[i]) {
        PostedJobsAreDone(s, i);
      }
      step := OfCaller(i, WakeEverybody(s));
    }
  }

  /** No deadlock: as long as some call is unfinished, some thread can take a step that is not a
      spurious wake-up -- at any time while the worker lives, and for ever if no caller was past the
      check and still waiting for the slot when s_running was cleared. */
  lemma Progress(s: State, i: nat) returns (step: Step)
    requires Reachable(s) && i < |s.c| && !Finished(s.c[i])
    requires s.w != WExit || s.late == {}
    ensures Genuine(step) && Enabled(s, step)
  {
    ReachableInv(s);
    if s.mu != Nobody {
      step := HolderMoves(s);
    } else if s.w != WWait && s.w != WExit {
      step := WorkerMoves(s);
    } else {
      if s.w == WExit {
        NothingLeftBehind(s);
      } else {
        assert s.executed + [] + [] == s.executed;
      }
      step := CallerMoves(s, i);
    }
  }

  lemma RunsArePosted(s: State)
    requires Logs(s)
    ensures s.executed <= s.posted && Distinct(s.executed) && |s.posted| <= |s.executed| + 2
    ensures forall i :: i in s.executed ==> i in s.posted
  {
    assert s.posted[..|s.executed|] == s.executed;
    assert forall k :: 0 <= k < |s.executed| ==> s.executed[k] == s.posted[k];
  }

  lemma OutcomeIsTrue(s: State, i: nat)
    requires Logs(s) && Jobs(s) && i < |s.c| && forall j :: j in s.executed ==> j in s.posted
    ensures s.c[i] == CReturn ==> i in s.executed && i in s.done
    ensures s.c[i] == CReject ==> i !in s.posted && i !in s.executed
  {
  }

  /** Every job runs at most once, in the order of posting; a call returns 0 only after its own job
      ran and was marked done, and -1 only if it never posted it. */
  lemma ExactlyOnceInOrder(s: State)
    requires Reachable(s)
    ensures s.executed <= s.posted && Distinct(s.executed) && |s.posted| <= |s.executed| + 2
    ensures forall i :: 0 <= i < |s.c| && s.c[i] == CReturn ==> i in s.executed && i in s.done
    ensures forall i :: 0 <= i < |s.c| && s.c[i] == CReject ==> i !in s.posted && i !in s.executed
  {
    ReachableInv(s);
    RunsArePosted(s);
    forall i | 0 <= i < |s.c|
      ensures s.c[i] == CReturn ==> i in s.executed && i in s.done
      ensures s.c[i] == CReject ==> i !in s.posted && i !in s.executed
    {
      OutcomeIsTrue(s, i);
    }
  }

  /** The worker never touches a job whose caller has returned, or has begun to destroy it. */
  lemma JobsOutliveTheirUse(s: State)
    requires Reachable(s) && JobOf(s.w).Some?
    ensures var j := JobOf(s.w).value; j < |s.c| && !Leaves(s.c[j]) && s.c[j] != CReject
  {
    ReachableInv(s);
    var j := JobOf(s.w).value;
    if InHand(s.w) != [] {
      HandIsFresh(s);
    } else if s.w.WLockJob? || s.w.WDone? || s.w.WSignal? || s.w.WUnlockJob? {
      assert j in s.executed;
      var k :| 0 <= k < |s.executed| && s.executed[k] == j;
      assert s.posted[k] == j && j in s.posted;
    }
  }

  /** When tse_worker_shutdown returns, every job posted before it cleared s_running has run, and its
      caller has been told. */
  lemma ShutdownDrains(s: State)
    requires Reachable(s) && s.stop == SDone
    ensures forall i :: i in s.atStop ==> i in s.done
  {
    ReachableInv(s);
    forall i | i in s.atStop
      ensures i in s.done
    {
      var k :| 0 <= k < |s.atStop| && s.atStop[k] == i;
      assert s.posted[k] == i && k < |s.executed|;
      assert s.executed[k] == s.posted[k];
    }
  }

  // ----- No livelock -----

  function StopRank(p: StopperPc): nat {
    match p
    case SIdle => 6
    case SLock => 5
    case SClear => 4
    case SSignal => 3
    case SUnlock => 2
    case SJoin => 1
    case SDone => 0
  }

  function WorkerRank(w: WorkerPc): nat {
    match w
    case WBroadcast(_) => 14
    case WUnlock(_) => 13
    case WRun(_) => 12
    case WLockJob(_) => 11
    case WDone(_) => 10
    case WSignal(_) => 9
    case WUnlockJob(_) => 8
    case WRelock => 7
    case WStart => 7
    case WTest => 6
    case WWake => 6
    case WInner => 5
    case WWait => 4
    case WTake => 4
    case WLeave => 3
    case WExit => 0
  }

  function CallerRank(c: CallerPc): nat {
    match c
    case CLock => 20
    case CCheck => 19
    case CWake => 18
    case CSlot => 17
    case CWait => 16
    case CPost => 16
    case CSignal => 15
    case CUnlock => 6
    case CLockJob => 5
    case CJobWake => 5
    case CTest => 4
    case CJobWait => 3
    case CUnlockJob => 2
    case CDestroy => 1
    case CRefuse => 1
    case CReturn => 0
    case CReject => 0
  }

  predicate MayPost(c: CallerPc) {
    c == CLock || c == CCheck || IsLate(c)
  }

  function Sum(c: seq<CallerPc>, f: CallerPc -> nat): nat {
    if c == [] then 0 else f(c[0]) + Sum(c[1..], f)
  }

  lemma {:induction false} SumUpdate(c: seq<CallerPc>, i: nat, p: CallerPc, f: CallerPc -> nat)
    requires i < |c|
    ensures Sum(c[i := p], f) + f(c[i]) == Sum(c, f) + f(p)
  {
    var d := c[i := p];
    if i == 0 {
      assert d[1..] == c[1..];
    } else {
      assert d[1..] == c[1..][i - 1 := p];
      SumUpdate(c[1..], i - 1, p, f);
    }
  }

  lemma {:induction false} SumSame(c: seq<CallerPc>, d: seq<CallerPc>, f: CallerPc -> nat)
    requires |c| == |d| && forall i :: 0 <= i < |c| ==> f(c[i]) == f(d[i])
    ensures Sum(c, f) == Sum(d, f)
  {
    if c != [] {
      SumSame(c[1..], d[1..], f);
    }
  }

  function PostCount(c: CallerPc): nat {
    if MayPost(c) then 1 else 0
  }

  /** Twice the number of jobs the worker can still take, and the broadcast it owes. */
  function Takes(s: State): nat {
    2 * (Sum(s.c, PostCount) + |InSlot(s)|) + if s.w.WBroadcast? then 1 else 0
  }

  function Effort(s: State): nat {
    3 * WorkerRank(s.w) + Sum(s.c, CallerRank)
  }

  predicate Less(t: State, s: State) {
    || StopRank(t.stop) < StopRank(s.stop)
    || (t.stop == s.stop && Takes(t) < Takes(s))
    || (t.stop == s.stop && Takes(t) == Takes(s) && Effort(t) < Effort(s))
  }

  lemma WorkerRankFalls(s: State)
    requires WorkerStep(s).Some? && !s.w.WBroadcast? && !s.w.WSignal?
    ensures var t := WorkerStep(s).value;
            && t.c == s.c && t.stop == s.stop
            && (if s.w == WTake && s.slot.Some? then s.slot.Some? && t.slot.None? && t.w.WBroadcast?
                else WorkerRank(t.w) < WorkerRank(s.w) && t.slot == s.slot && !t.w.WBroadcast?)
  {
  }

  lemma WorkerWakes(s: State)
    requires s.w.WBroadcast? || s.w.WSignal?
    ensures var t := WorkerStep(s).value;
            && t.stop == s.stop && t.slot == s.slot && WorkerRank(t.w) < WorkerRank(s.w) && !t.w.WBroadcast?
            && t.c == if s.w.WBroadcast? then WakeAll(s.c)
                      else if s.w.job < |s.c| && s.c[s.w.job] == CJobWait then s.c[s.w.job := CJobWake] else s.c
  {
  }

  lemma WorkerAdvances(s: State)
    requires Locks(s) && WorkerStep(s).Some?
    ensures Less(WorkerStep(s).value, s)
  {
    hide Locks;
    if s.w.WBroadcast? {
      WorkerWakes(s);
      hide WorkerStep, Sum, WorkerRank;
      SumSame(s.c, WakeAll(s.c), PostCount);
    } else if s.w.WSignal? {
      WorkerWakes(s);
      hide WorkerStep, Sum, WorkerRank;
      if s.w.job < |s.c| && s.c[s.w.job] == CJobWait {
        SumUpdate(s.c, s.w.job, CJobWake, PostCount);
        SumUpdate(s.c, s.w.job, CJobWake, CallerRank);
      }
    } else {
      WorkerRankFalls(s);
      hide WorkerStep, Sum, WorkerRank;
    }
  }

  /** The signal after a post finds no caller waiting: it can only reach the worker. */
  lemma SignalMoves(s: State, i: nat, k: Wake)
    requires Waits(s) && i < |s.c| == |s.jobMu| && s.c[i] == CSignal && GoodWake(s, k)
    ensures var t := CallerStep(s, i, k).value;
            t.c == s.c[i := CUnlock] && t.slot == s.slot && t.stop == s.stop
            && (t.w == s.w || (s.w == WWait && t.w == WWake))
  {
    assert k.callers == {};
    var c' := s.c[i := CUnlock];
    assert WakeCallers(c', k.callers) == c';
  }

  lemma SignalAdvances(s: State, i: nat, k: Wake)
    requires Waits(s) && i < |s.c| == |s.jobMu| && s.c[i] == CSignal && GoodWake(s, k)
    ensures Less(CallerStep(s, i, k).value, s)
  {
    SignalMoves(s, i, k);
    SumUpdate(s.c, i, CUnlock, PostCount);
    SumUpdate(s.c, i, CUnlock, CallerRank);
  }

  lemma CallerRankFalls(s: State, i: nat, k: Wake)
    requires i < |s.c| == |s.jobMu| && CallerStep(s, i, k).Some? && s.c[i] != CSignal
    ensures var t := CallerStep(s, i, k).value;
            && t.c == s.c[i := t.c[i]] && t.w == s.w && t.stop == s.stop
            && CallerRank(t.c[i]) < CallerRank(s.c[i])
            && (if s.c[i] == CPost then t.slot == Some(i) && PostCount(t.c[i]) == 0 && PostCount(s.c[i]) == 1
                else t.slot == s.slot && PostCount(t.c[i]) <= PostCount(s.c[i]))
  {
  }

  lemma CallerAdvances(s: State, i: nat, k: Wake)
    requires Inv(s) && Do(s, OfCaller(i, k)).Some?
    ensures Less(Do(s, OfCaller(i, k)).value, s)
  {
    if s.c[i] == CSignal {
      SignalAdvances(s, i, k);
    } else {
      var t := CallerStep(s, i, k).value;
      CallerRankFalls(s, i, k);
      SumUpdate(s.c, i, t.c[i], PostCount);
      SumUpdate(s.c, i, t.c[i], CallerRank);
    }
  }

  /** Every step that is not a new call, a new shutdown or a spurious wake-up brings the system
      closer to rest, under any schedule. */
  lemma GenuineStepsAdvance(s: State, step: Step)
    requires Inv(s) && Genuine(step) && Enabled(s, step)
    ensures Less(Do(s, step).value, s)
  {
    match step
    case OfWorker => WorkerAdvances(s);
    case OfCaller(i, k) => CallerAdvances(s, i, k);
    case OfStopper(k) =>
  }

  /** No livelock: there is no infinite run of genuine steps. */
  lemma NoEndlessRun(run: nat -> State, step: nat -> Step, n: nat)
    requires forall k: nat :: GenuineStep(run(k), step(k), run(k + 1))
    ensures false
    decreases StopRank(run(n).stop), Takes(run(n)), Effort(run(n))
  {
    assert GenuineStep(run(n), step(n), run(n + 1));
    GenuineStepsAdvance(run(n), step(n));
    NoEndlessRun(run, step, n + 1);
  }

  ghost predicate GenuineStep(s: State, step: Step, t: State) {
    Inv(s) && Genuine(step) && Do(s, step) == Some(t)
  }

  // ----- Late callers -----

  /** Posted, never run, and nobody is left to run it. */
  ghost predicate Stranded(s: State, i: nat) {
    Inv(s) && s.w == WExit && i < |s.c| && HasPosted(s.c[i]) && i !in s.done
  }

  /** A stranded call never returns, whatever happens next. */
  lemma {:induction false} StrandedForEver(s: State, i: nat, steps: seq<Step>)
    requires Stranded(s, i) && Exec(s, steps).Some?
    ensures Stranded(Exec(s, steps).value, i) && !Finished(Exec(s, steps).value.c[i])
    decreases |steps|
  {
    if steps != [] {
      StrandedStep(s, i, steps[0]);
      StrandedForEver(Do(s, steps[0]).value, i, steps[1..]);
    }
  }

  lemma StrandedStep(s: State, i: nat, step: Step)
    requires Stranded(s, i) && Do(s, step).Some?
    ensures Stranded(Do(s, step).value, i)
  {
    InvStep(s, step);
    StrandedIsPosted(s, i);
    PostedGrows(s, step);
    ExitIsFinal(s, step);
    PostedHasPosted(Do(s, step).value, i);
    hide Do, Inv;
  }

  lemma StrandedIsPosted(s: State, i: nat)
    requires Stranded(s, i)
    ensures i in s.posted
  {
  }

  lemma PostedHasPosted(s: State, i: nat)
    requires Inv(s) && i in s.posted
    ensures i < |s.c| && HasPosted(s.c[i])
  {
  }

  /** Once the worker is gone it stays gone, and no done flag is set any more. */
  lemma ExitIsFinal(s: State, step: Step)
    requires s.w == WExit && Do(s, step).Some?
    ensures Do(s, step).value.w == WExit && Do(s, step).value.done == s.done
  {
  }

  lemma PostedGrows(s: State, step: Step)
    requires Do(s, step).Some?
    ensures s.posted <= Do(s, step).value.posted
  {
  }

  /** After s_running was cleared, the worker gone quiet about caller i, who still waits for the slot. */
  ghost predicate Draining(s: State, i: nat) {
    && Inv(s) && !s.running && s.stop == SJoin && (s.mu == Nobody || s.mu == ByWorker)
    && i < |s.c| && (s.c[i] == CWait || s.c[i] == CWake)
  }

  /** A caller that blocks the worker's access to its job lets go of it. */
  lemma Unblock(s: State, i: nat) returns (step: Step)
    requires Draining(s, i) && s.w.WLockJob? && s.jobMu[s.w.job] != JobFree
    ensures Genuine(step) && Do(s, step).Some? && Draining(Do(s, step).value, i) && Do(s, step).value.w == s.w
  {
    var j := s.w.job;
    CallerBlocks(s);
    step := OfCaller(j, Wake(false, {}));
    InvStep(s, step);
    hide Inv;
  }

  lemma CallerBlocks(s: State)
    requires Inv(s) && s.w.WLockJob? && s.jobMu[s.w.job] != JobFree
    ensures s.w.job < |s.c| && s.c[s.w.job] == CTest
  {
  }

  lemma WorkerLetsWait(s: State, i: nat)
    requires WorkerStep(s).Some? && (s.mu == Nobody || s.mu == ByWorker)
    requires i < |s.c| && (s.c[i] == CWait || s.c[i] == CWake)
    ensures var t := WorkerStep(s).value;
            && t.running == s.running && t.stop == s.stop && (t.mu == Nobody || t.mu == ByWorker)
            && |t.c| == |s.c| && (t.c[i] == CWait || t.c[i] == CWake)
            && (t.w == WExit <==> s.w == WLeave)
            && (s.w == WLeave ==> t.slot == s.slot)
  {
  }

  lemma WorkerDrains(s: State, i: nat)
    requires Draining(s, i) && s.w != WExit && (s.w.WLockJob? ==> s.jobMu[s.w.job] == JobFree)
    ensures WorkerStep(s).Some? && Draining(WorkerStep(s).value, i)
    ensures s.w == WLeave ==> WorkerStep(s).value.w == WExit && WorkerStep(s).value.slot.None?
    ensures s.w != WLeave ==> WorkerStep(s).value.w != WExit
  {
    WorkerIsReady(s);
    WorkerLetsWait(s, i);
    InvStep(s, OfWorker);
  }

  lemma WorkerIsReady(s: State)
    requires Locks(s) && Waits(s) && !s.running && s.stop == SJoin && (s.mu == Nobody || s.mu == ByWorker)
    requires s.w != WExit && (s.w.WLockJob? ==> s.w.job < |s.c| && s.jobMu[s.w.job] == JobFree)
    ensures WorkerStep(s).Some?
  {
  }

  /** The next step towards the worker's exit; caller i stays where it is. */
  lemma DrainStep(s: State, i: nat) returns (step: Step)
    requires Draining(s, i) && s.w != WExit
    ensures Genuine(step) && Do(s, step).Some? && Draining(Do(s, step).value, i)
    ensures s.w == WLeave ==> Do(s, step).value.w == WExit && Do(s, step).value.slot.None?
    ensures s.w != WLeave ==> Do(s, step).value.w != WExit
  {
    if s.w.WLockJob? && s.jobMu[s.w.job] != JobFree {
      step := Unblock(s, i);
    } else {
      step := OfWorker;
      WorkerDrains(s, i);
    }
  }

  lemma Drain(s: State, i: nat) returns (steps: seq<Step>)
    requires Draining(s, i) && s.w != WExit
    ensures Exec(s, steps).Some?
    ensures var t := Exec(s, steps).value; Draining(t, i) && t.w == WExit && t.slot.None?
    decreases StopRank(s.stop), Takes(s), Effort(s)
  {
    var step := DrainStep(s, i);
    var t := Do(s, step).value;
    GenuineStepsAdvance(s, step);
    var rest := [];
    if t.w != WExit {
      rest := Drain(t, i);
    }
    ExecCons(s, step, rest);
    steps := [step] + rest;
  }

  /** The three steps of a woken caller that finds the slot empty. */
  lemma WokenCallerPosts(s: State, i: nat) returns (s1: State, s2: State, s3: State)
    requires i < |s.c| == |s.jobMu| && s.c[i] == CWake && s.mu == Nobody && s.slot.None?
    ensures var own := OfCaller(i, Wake(false, {}));
            Do(s, own) == Some(s1) && Do(s1, own) == Some(s2) && Do(s2, own) == Some(s3)
    ensures |s3.c| == |s.c| && s3.c[i] == CSignal && s3.w == s.w && s3.done == s.done
  {
    s1 := s.(mu := ByCaller(i), c := s.c[i := CSlot]);
    s2 := s1.(c := s1.c[i := CPost]);
    s3 := s2.(slot := Some(i), posted := s2.posted + [i], c := s2.c[i := CSignal]);
  }

  /** A caller woken after the worker left posts a job nobody will run. */
  lemma PostAfterWake(s: State, i: nat) returns (steps: seq<Step>)
    requires Draining(s, i) && s.w == WExit && s.slot.None? && s.mu == Nobody
    ensures Exec(s, steps).Some? && Stranded(Exec(s, steps).value, i)
  {
    NotDoneYet(s, i);
    var own := OfCaller(i, Wake(false, {}));
    var s1, s2, s3 := WokenCallerPosts(s, i);
    InvStep(s, own);
    InvStep(s1, own);
    InvStep(s2, own);
    ExecCons(s2, own, []);
    ExecCons(s1, own, [own] + []);
    ExecCons(s, own, [own] + ([own] + []));
    steps := [own] + ([own] + ([own] + []));
  }

  lemma NotDoneYet(s: State, i: nat)
    requires Draining(s, i) && s.w == WExit && s.slot.None?
    ensures s.c[i] == CWake && i !in s.done
  {
    RunsArePosted(s);
    assert i !in s.posted && i !in s.executed;
  }

  lemma StopperSteps(s: State, k: Wake, i: nat)
    requires i < |s.c| == |s.jobMu| && IsLate(s.c[i]) && s.c[i] != CSlot && s.c[i] != CPost
    ensures s.stop == SSignal ==>
              var t := StopperStep(s, k).value;
              t.stop == SUnlock && t.running == s.running && t.mu == s.mu && |t.c| == |s.c|
              && (t.w == WExit <==> s.w == WExit) && (t.c[i] == CWait || t.c[i] == CWake)
    ensures s.stop == SUnlock ==>
              var t := StopperStep(s, k).value;
              t.stop == SJoin && t.running == s.running && t.mu == Nobody && t.c == s.c && t.w == s.w
  {
  }

  lemma StopperReleases(s: State, i: nat) returns (steps: seq<Step>)
    requires Inv(s) && s.stop == SSignal && i < |s.c| && IsLate(s.c[i])
    ensures Exec(s, steps).Some? && Draining(Exec(s, steps).value, i) && Exec(s, steps).value.w != WExit
  {
    LateSleeps(s, i);
    var first := OfStopper(WakeEverybody(s));
    StopperSteps(s, first.wake, i);
    InvStep(s, first);
    var s1 := Do(s, first).value;
    var second := OfStopper(WakeEverybody(s1));
    StopperSteps(s1, second.wake, i);
    InvStep(s1, second);
    hide StopperStep, Inv;
    ExecCons(s1, second, []);
    ExecCons(s, first, [second] + []);
    steps := [first] + ([second] + []);
  }

  /** While the stopper holds s_mu a late caller waits for the slot or for s_mu. */
  lemma LateSleeps(s: State, i: nat)
    requires Inv(s) && s.stop == SSignal && i < |s.c| && IsLate(s.c[i])
    ensures s.c[i] != CSlot && s.c[i] != CPost && !s.running && s.w != WExit && |s.c| == |s.jobMu|
  {
  }

  /** If some caller is late when s_running was just cleared, the run can go on so that the worker exits
      first and that caller hangs for ever. */
  lemma LateCallersCanBeStranded(s: State, i: nat) returns (steps: seq<Step>)
    requires Reachable(s) && s.stop == SSignal && i < |s.c| && IsLate(s.c[i])
    ensures Exec(s, steps).Some? && Stranded(Exec(s, steps).value, i)
  {
    ReachableInv(s);
    hide Inv, Stranded, Draining;
    var release := StopperReleases(s, i);
    var s1 := Exec(s, release).value;
    var drain := Drain(s1, i);
    var s2 := Exec(s1, drain).value;
    DrainedIsFree(s2, i);
    var post := PostAfterWake(s2, i);
    ExecJoins(s1, drain, post);
    ExecJoins(s, release, drain + post);
    steps := release + (drain + post);
  }

  lemma DrainedIsFree(s: State, i: nat)
    requires Draining(s, i) && s.w == WExit
    ensures s.mu == Nobody
  {
  }

  /** While the stopper holds s_mu, those late when it cleared s_running are where they were. */
  predicate LateAsleep(s: State) {
    s.stop == SSignal ==> forall i :: i in s.late ==> i < |s.c| && (s.c[i] == CWait || s.c[i] == CWake)
  }

  lemma LateAsleepStep(s: State, step: Step)
    requires Inv(s) && LateAsleep(s) && Do(s, step).Some?
    ensures LateAsleep(Do(s, step).value)
  {
    hide Inv, Do, LateAsleep;
    if s.stop == SClear {
      LateAsleepAtClear(s, step);
    } else {
      LateAsleepElsewhere(s, step);
    }
  }

  lemma LateAsleepAtClear(s: State, step: Step)
    requires Inv(s) && s.stop == SClear && Do(s, step).Some?
    ensures LateAsleep(Do(s, step).value)
  {
    NobodyElseHolds(s);
    hide Inv, WorkerStep, CallerStep;
    match step
    case OfWorker => WorkerSparesWaiters(s);
    case OfCaller(i, k) => OnlyCallerMoves(s, i, k);
    case OfStopper(k) =>
    case _ =>
  }

  /** While the stopper holds s_mu nobody is between line 101 and line 114. */
  lemma NobodyElseHolds(s: State)
    requires Inv(s) && StopperHolds(s.stop)
    ensures s.mu == ByStopper && |s.c| == |s.jobMu|
    ensures forall i :: 0 <= i < |s.c| && IsLate(s.c[i]) ==> s.c[i] == CWait || s.c[i] == CWake
  {
  }

  lemma LateAsleepElsewhere(s: State, step: Step)
    requires Inv(s) && LateAsleep(s) && s.stop != SClear && Do(s, step).Some?
    ensures LateAsleep(Do(s, step).value)
  {
    if s.stop == SSignal {
      NobodyElseHolds(s);
    } else {
      assert |s.c| == |s.jobMu|;
    }
    hide Inv, WorkerStep, CallerStep;
    match step
    case OfWorker => WorkerSparesWaiters(s);
    case OfCaller(i, k) => CallerSparesWaiters(s, i, k);
    case OfStopper(k) =>
    case _ =>
  }

  /** With s_mu taken, a waiter of s_cond can only be woken. */
  lemma CallerSparesWaiters(s: State, i: nat, k: Wake)
    requires i < |s.c| == |s.jobMu| && CallerStep(s, i, k).Some?
    ensures var t := CallerStep(s, i, k).value;
            && t.stop == s.stop && t.late == s.late && |t.c| == |s.c|
            && (s.mu != Nobody ==>
                  forall j :: 0 <= j < |s.c| && (s.c[j] == CWait || s.c[j] == CWake) ==>
                    t.c[j] == CWait || t.c[j] == CWake)
  {
    OnlyCallerMoves(s, i, k);
    assert s.mu != Nobody ==> s.c[i] != CWake && s.c[i] != CWait;
    hide CallerStep;
  }

  lemma WorkerSparesWaiters(s: State)
    requires |s.c| == |s.jobMu| && WorkerStep(s).Some?
    ensures var t := WorkerStep(s).value;
            && t.stop == s.stop && t.late == s.late && |t.c| == |s.c|
            && forall i :: 0 <= i < |s.c| && (s.c[i] == CWait || s.c[i] == CWake) ==> t.c[i] == CWait || t.c[i] == CWake
  {
  }

  lemma {:induction false} LateAsleepAlong(s: State, steps: seq<Step>)
    requires Inv(s) && LateAsleep(s) && Exec(s, steps).Some?
    ensures LateAsleep(Exec(s, steps).value)
    decreases |steps|
  {
    if steps != [] {
      InvStep(s, steps[0]);
      LateAsleepStep(s, steps[0]);
      hide Inv, LateAsleep, Do;
      LateAsleepAlong(Do(s, steps[0]).value, steps[1..]);
    }
  }

  /** Once s_running was cleared, the set of late callers is what it was. */
  lemma LateIsFixed(s: State, step: Step)
    requires s.stop != SIdle && s.stop != SLock && s.stop != SClear && Do(s, step).Some?
    ensures var t := Do(s, step).value;
            t.stop != SIdle && t.stop != SLock && t.stop != SClear && t.late == s.late
  {
  }

  lemma {:induction false} LateIsFixedAlong(s: State, steps: seq<Step>)
    requires s.stop != SIdle && s.stop != SLock && s.stop != SClear && Exec(s, steps).Some?
    ensures Exec(s, steps).value.late == s.late
    decreases |steps|
  {
    if steps != [] {
      LateIsFixed(s, steps[0]);
      hide Do;
      LateIsFixedAlong(Do(s, steps[0]).value, steps[1..]);
    }
  }

  lemma StrandedNeedsLate(s: State, i: nat)
    requires Stranded(s, i)
    ensures s.late != {}
  {
    if s.late == {} {
      NothingLeftBehind(s);
      PostedJobsAreDone(s, i);
    }
  }

  /** When s_running was just cleared, some run strands a caller if and only if some caller is late. */
  lemma StrandsExactlyTheLate(s: State)
    requires Reachable(s) && s.stop == SSignal
    ensures (exists steps, j :: Exec(s, steps).Some? && Stranded(Exec(s, steps).value, j))
            <==> exists i :: 0 <= i < |s.c| && IsLate(s.c[i])
  {
    if i :| 0 <= i < |s.c| && IsLate(s.c[i]) {
      var steps := LateCallersCanBeStranded(s, i);
      assert Exec(s, steps).Some? && Stranded(Exec(s, steps).value, i);
    }
    if steps, j :| Exec(s, steps).Some? && Stranded(Exec(s, steps).value, j) {
      StrandedNeedsLate(Exec(s, steps).value, j);
      LateIsFixedAlong(s, steps);
      var all :| Exec(INIT, all) == Some(s);
      InitInv();
      LateAsleepAlong(INIT, all);
      hide Inv, Stranded, Exec;
      SomeMember(s.late);
      var i :| i in s.late;
      assert IsLate(s.c[i]);
    }
  }

  lemma SomeMember(ids: set<nat>)
    requires ids != {}
    ensures exists i :: i in ids
  {
    assert (forall i :: i !in ids) ==> ids == {};
  }

  lemma ReachableStep(s: State, step: Step, t: State)
    requires Reachable(s) && Do(s, step) == Some(t)
    ensures Reachable(t)
  {
    hide Do;
    var steps :| Exec(INIT, steps) == Some(s);
    ExecCons(s, step, []);
    ExecJoins(INIT, steps, [step] + []);
    assert Exec(INIT, steps + ([step] + [])) == Some(t);
  }

  lemma ReachableByCaller(s: State, i: nat, t: State)
    requires Reachable(s) && i < |s.c| == |s.jobMu| && CallerStep(s, i, Wake(false, {})) == Some(t)
    requires s.c[i] == CSignal ==> GoodWake(s, Wake(false, {}))
    ensures Reachable(t)
  {
    hide CallerStep;
    ReachableStep(s, OfCaller(i, Wake(false, {})), t);
  }

  lemma TwoCallers(a: CallerPc, b: CallerPc, x: CallerPc)
    ensures [a, b][0 := x] == [x, b] && [a, b][1 := x] == [a, x]
  {
  }

  /** Two calls and a shutdown have arrived. */
  lemma TwoCallsArrive() returns (s: State)
    ensures Reachable(s) && s == INIT.(c := [CLock, CLock], jobMu := [JobFree, JobFree], stop := SLock)
  {
    assert Exec(INIT, []) == Some(INIT);
    hide Reachable;
    var s0 := INIT.(c := [CLock], jobMu := [JobFree]);
    assert [] + [CLock] == [CLock] && [] + [JobFree] == [JobFree];
    ReachableStep(INIT, Call, s0);
    var s1 := s0.(c := [CLock, CLock], jobMu := [JobFree, JobFree]);
    assert [CLock] + [CLock] == [CLock, CLock] && [JobFree] + [JobFree] == [JobFree, JobFree];
    ReachableStep(s0, Call, s1);
    s := s1.(stop := SLock);
    ReachableStep(s1, Shutdown, s);
  }

  /** The first caller finds the slot empty. */
  lemma FirstCallerFindsSlot() returns (s: State)
    ensures Reachable(s)
    ensures s == INIT.(c := [CPost, CLock], jobMu := [JobFree, JobFree], stop := SLock, mu := ByCaller(0))
  {
    hide Reachable;
    var s2 := TwoCallsArrive();
    var s3 := s2.(mu := ByCaller(0), c := [CCheck, CLock]);
    TwoCallers(CLock, CLock, CCheck);
    ReachableByCaller(s2, 0, s3);
    var s4 := s3.(c := [CSlot, CLock]);
    TwoCallers(CCheck, CLock, CSlot);
    ReachableByCaller(s3, 0, s4);
    s := s4.(c := [CPost, CLock]);
    TwoCallers(CSlot, CLock, CPost);
    ReachableByCaller(s4, 0, s);
  }

  /** It posts, and leaves s_mu. */
  lemma FirstCallerPosts() returns (s: State)
    ensures Reachable(s)
    ensures s == INIT.(c := [CLockJob, CLock], jobMu := [JobFree, JobFree], slot := Some(0), posted := [0],
                       stop := SLock)
  {
    hide Reachable;
    var s5 := FirstCallerFindsSlot();
    var s6 := s5.(c := [CSignal, CLock], slot := Some(0), posted := [0]);
    assert [] + [0] == [0];
    TwoCallers(CPost, CLock, CSignal);
    ReachableByCaller(s5, 0, s6);
    var s7 := s6.(c := [CUnlock, CLock]);
    TwoCallers(CSignal, CLock, CUnlock);
    assert WakeCallers([CUnlock, CLock], {}) == [CUnlock, CLock];
    ReachableByCaller(s6, 0, s7);
    s := s7.(mu := Nobody, c := [CLockJob, CLock]);
    TwoCallers(CUnlock, CLock, CLockJob);
    ReachableByCaller(s7, 0, s);
  }

  /** The second caller finds the slot taken, and waits. */
  lemma SecondCallerWaits() returns (s: State)
    ensures Reachable(s)
    ensures s == INIT.(c := [CLockJob, CWait], jobMu := [JobFree, JobFree], slot := Some(0), posted := [0],
                       stop := SLock)
  {
    hide Reachable;
    var s0 := FirstCallerPosts();
    var s1 := s0.(mu := ByCaller(1), c := [CLockJob, CCheck]);
    TwoCallers(CLockJob, CLock, CCheck);
    ReachableByCaller(s0, 1, s1);
    var s2 := s1.(c := [CLockJob, CSlot]);
    TwoCallers(CLockJob, CCheck, CSlot);
    ReachableByCaller(s1, 1, s2);
    s := s2.(mu := Nobody, c := [CLockJob, CWait]);
    TwoCallers(CLockJob, CSlot, CWait);
    ReachableByCaller(s2, 1, s);
  }

  /** Late callers exist: with the slot taken, a second caller waits when shutdown comes. */
  lemma LateCallerExists() returns (s: State)
    ensures Reachable(s) && s.stop == SSignal && |s.c| == 2 && IsLate(s.c[1])
  {
    hide Reachable;
    var s3 := SecondCallerWaits();
    var s4 := s3.(mu := ByStopper, stop := SClear);
    ReachableStep(s3, OfStopper(Wake(false, {})), s4);
    s := s4.(running := false, stop := SSignal, atStop := [0], late := LateCallers(s4.c));
    ReachableStep(s4, OfStopper(Wake(false, {})), s);
  }

  // ----- Every call returns -----

  /** No thread can take a step but by a new call, a shutdown or a spurious wake-up. */
  ghost predicate Quiet(s: State) {
    forall step :: Genuine(step) ==> !Enabled(s, step)
  }

  /** A run of genuine steps that goes on for as long as it can. */
  lemma RunToRest(s: State) returns (steps: seq<Step>)
    requires Inv(s)
    ensures (forall i :: 0 <= i < |steps| ==> Genuine(steps[i]))
    ensures Exec(s, steps).Some? && Quiet(Exec(s, steps).value)
    decreases StopRank(s.stop), Takes(s), Effort(s)
  {
    hide Inv, Do, Takes, Effort, StopRank;
    if Quiet(s) {
      steps := [];
    } else {
      var step :| Genuine(step) && Enabled(s, step);
      var t := Do(s, step).value;
      GenuineStepsAdvance(s, step);
      InvStep(s, step);
      var rest := RunToRest(t);
      ExecCons(s, step, rest);
      steps := [step] + rest;
    }
  }

  /** A call that cannot go on with everything at rest has posted a job nobody will run, or waits for a
      slot that holds one. */
  lemma StuckBehindStranded(s: State, i: nat) returns (j: nat)
    requires Inv(s) && Quiet(s) && i < |s.c| && !Finished(s.c[i])
    ensures Stranded(s, j)
  {
    if s.mu != Nobody {
      var step := HolderMoves(s);
    }
    if s.w != WExit && s.w != WWait {
      var step := WorkerMoves(s);
    }
    if s.w == WWait {
      assert s.slot.None? && s.executed + [] + [] == s.executed;
      var step := CallerMoves(s, i);
    }
    if s.c[i] == CWait {
      j := s.slot.value;
      SlotIsStranded(s);
    } else {
      j := i;
      if i in s.done || !HasPosted(s.c[i]) {
        var step := DoneCallerMoves(s, i);
      }
    }
  }

  lemma SlotIsStranded(s: State)
    requires Inv(s) && s.w == WExit && s.slot.Some?
    ensures Stranded(s, s.slot.value)
  {
    SlotIsFresh(s);
    assert s.posted[|s.posted| - 1] == s.slot.value && s.slot.value in s.posted;
  }

  lemma DoneCallerMoves(s: State, i: nat) returns (step: Step)
    requires Inv(s) && s.mu == Nobody && s.w == WExit && i < |s.c| && !Finished(s.c[i]) && s.c[i] != CWait
    requires i in s.done || !HasPosted(s.c[i])
    ensures Genuine(step) && Enabled(s, step)
  {
    if (s.c[i] == CLockJob || s.c[i] == CJobWake) && s.jobMu[i] != JobFree {
      step := JobHolderMoves(s, i);
    } else {
      step := OfCaller(i, WakeEverybody(s));
    }
  }

  /** Every run of genuine steps that goes on for as long as it can ends with all calls returned, unless a
      caller was stranded; if none was late when s_running was cleared, all have returned. */
  lemma EveryCallReturns(s: State, steps: seq<Step>)
    requires Reachable(s) && Exec(s, steps).Some? && Quiet(Exec(s, steps).value)
    ensures var t := Exec(s, steps).value;
            && ((forall i :: 0 <= i < |t.c| ==> Finished(t.c[i])) <==> forall j :: !Stranded(t, j))
            && (t.late == {} ==> forall i :: 0 <= i < |t.c| ==> Finished(t.c[i]))
  {
    var t := Exec(s, steps).value;
    ReachableInv(s);
    InvAlong(s, steps);
    hide Exec, Inv;
    if i :| 0 <= i < |t.c| && !Finished(t.c[i]) {
      var j := StuckBehindStranded(t, i);
      StrandedNeedsLate(t, j);
    }
    if j :| Stranded(t, j) {
      StrandedIsUnfinished(t, j);
    }
  }

  lemma StrandedIsUnfinished(s: State, i: nat)
    requires Stranded(s, i)
    ensures i < |s.c| && !Finished(s.c[i])
  {
  }
}
