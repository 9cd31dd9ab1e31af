/** Time slices: what each call leaves of the time slice, and that nothing takes the processor while rescheduling is
    deferred. */
module KernelSlices {
  import opened KernelState
  import opened KernelSafety
  import opened Sequences

  // ---------- What a call does to the time slice ----------

  /** The current process keeps what is left of its slice.  A new one gets a whole slice, less the tick that cut it
      short, if one did. */
  predicate Slice(k: Kernel, k': Kernel) {
    if k'.currpid == k.currpid then k'.preempt == k.preempt && k'.midtick == k.midtick
    else
      && k'.midtick == k.midtick - {k'.currpid}
      && k'.preempt == if k'.currpid in k.midtick then QUANTUM - 1 else QUANTUM
  }

  /** The same process runs on. */
  predicate Held(k: Kernel, k': Kernel) {
    k'.currpid == k.currpid && k'.preempt == k.preempt && k'.midtick == k.midtick && k'.ndefers == k.ndefers
  }

  lemma InvBase(k: Kernel)
    requires Inv(k)
    ensures Base(k, NOHOLE) && SemsOK(k) && DelaysOK(k)
  {
  }

  lemma HasTick(k: Kernel)
    requires Base(k, NOHOLE)
    ensures k.preempt >= 1
  {
  }

  lemma CurrentOff(k: Kernel)
    requires Base(k, NOHOLE) && k.procs[k.currpid].state == CURR
    ensures k.currpid !in k.ready
  {
    hide ByPriority, NullOK;
    HomeOf(k, k.currpid);
  }

  lemma ReschedSlice(k: Kernel)
    requires Sized(k) && k.currpid !in k.ready
    ensures Slice(k, Resched(k))
  {
    if k.ndefers == 0 && k.procs[k.currpid].state == CURR && k.ready != []
        && Prio(k, k.currpid) <= Prio(k, k.ready[0]) {
      var k1 := SetState(k, k.currpid, READY);
      assert Prio(k1, k1.currpid) == Prio(k, k.currpid) && Prio(k1, k.ready[0]) == Prio(k, k.ready[0]);
      assert Insert(k1, k.currpid).ready[0] == k.ready[0];
    }
  }

  /** Another process becomes ready. */
  lemma ReadySlice(k: Kernel, x: Pid)
    requires Sized(k) && IsPid(x) && x != k.currpid && k.currpid !in k.ready
    ensures Slice(k, Ready(k, x)) && (k.ndefers > 0 ==> Held(k, Ready(k, x)))
  {
    hide Resched, InsertPos;
    var k1 := SetState(k, x, READY);
    InsertAtIn(k1.ready, InsertPos(k1, k1.ready, Prio(k1, x)), x, k.currpid);
    ReschedSlice(Insert(k1, x));
    NoDefersKept(Insert(k1, x));
  }

  lemma ReadyHeld(k: Kernel, x: Pid)
    requires Sized(k) && IsPid(x) && k.ndefers > 0
    ensures Held(k, Ready(k, x))
  {
    hide Resched, InsertPos;
    NoDefersKept(Insert(SetState(k, x, READY), x));
  }

  lemma {:induction false} SignalLoopHeld(k: Kernel, s: int, n: nat)
    requires Sized(k) && 0 <= s < NSEM && k.ndefers > 0
    ensures Held(k, SignalLoop(k, s, n))
    decreases n
  {
    hide Ready;
    if n > 0 {
      var sem := k.sems[s];
      if sem.count < 0 && sem.queue != [] && IsPid(sem.queue[0]) {
        ReadyHeld(SetSem(k, s, sem.(count := sem.count + 1, queue := sem.queue[1..])), sem.queue[0]);
      }
      SignalLoopHeld(SignalOne(k, s), s, n - 1);
    }
  }

  lemma {:induction false} ReadyAllHeld(k: Kernel, s: int, countUp: bool)
    requires Sized(k) && 0 <= s < NSEM && k.ndefers > 0
    ensures Held(k, ReadyAll(k, s, countUp))
    decreases |k.sems[s].queue|
  {
    hide Ready;
    var sem := k.sems[s];
    if sem.queue != [] && IsPid(sem.queue[0]) {
      var k1 := SetSem(k, s, sem.(queue := sem.queue[1..], count := if countUp then sem.count + 1 else sem.count));
      SemsReady(k1, sem.queue[0]);
      ReadyHeld(k1, sem.queue[0]);
      ReadyAllHeld(Ready(k1, sem.queue[0]), s, countUp);
    }
  }

  lemma {:induction false} WakeLoopHeld(k: Kernel)
    requires Sized(k) && k.ndefers > 0
    ensures Held(k, WakeLoop(k))
    decreases |k.sleepq|
  {
    hide Ready;
    if k.sleepq != [] && k.sleepq[0].key <= 0 && IsPid(k.sleepq[0].pid) {
      var k1 := k.(sleepq := k.sleepq[1..]);
      SleepReady(k1, k.sleepq[0].pid);
      ReadyHeld(k1, k.sleepq[0].pid);
      WakeLoopHeld(Ready(k1, k.sleepq[0].pid));
    }
  }

  /** The end of a deferral: nothing happens while an earlier one is outstanding. */
  lemma StopSlice(k: Kernel)
    requires Sized(k) && k.currpid !in k.ready
    ensures Slice(k, DeferStop(k)) && (k.ndefers > 1 ==> Held(k.(ndefers := k.ndefers - 1), DeferStop(k)))
  {
    hide Resched;
    if k.ndefers == 1 && k.attempt { ReschedSlice(k.(ndefers := 0)); }
  }

  lemma SliceSelf(k: Kernel)
    ensures Slice(k, k)
  {
  }

  lemma SliceFrom(k: Kernel, k1: Kernel, k2: Kernel)
    requires k1.currpid == k.currpid && k1.preempt == k.preempt && k1.midtick == k.midtick && Slice(k1, k2)
    ensures Slice(k, k2)
  {
  }

  /** A group of processes made ready under a deferral of its own. */
  lemma GroupSlice(k: Kernel, k0: Kernel, k1: Kernel)
    requires k0.currpid == k.currpid && k0.preempt == k.preempt && k0.midtick == k.midtick
    requires k0.ndefers == k.ndefers + 1 && Held(k0, k1) && Inv(k1)
    ensures Slice(k, DeferStop(k1)) && (k.ndefers > 0 ==> DeferStop(k1).currpid == k.currpid)
  {
    hide Inv, Base, DeferStop;
    InvSized(k1);
    InvBase(k1);
    CurrentOff(k1);
    StopSlice(k1);
  }

  lemma SignalNSlice(k: Kernel, s: int, n: int)
    requires Inv(k)
    ensures Sized(k) && Slice(k, SignalN(k, s, n)) && (k.ndefers > 0 ==> SignalN(k, s, n).currpid == k.currpid)
  {
    hide Inv, SignalLoop, DeferStop, Slice;
    InvSized(k);
    if GoodSem(k, s) && n >= 0 {
      DeferInv(k);
      DeferStarted(k);
      SignalLoopKeeps(DeferStart(k), s, n);
      SignalLoopHeld(DeferStart(k), s, n);
      GroupSlice(k, DeferStart(k), SignalLoop(DeferStart(k), s, n));
    } else {
      SliceSelf(k);
    }
  }

  lemma SemResetSlice(k: Kernel, s: int, count: int)
    requires Inv(k)
    ensures Sized(k) && Slice(k, SemReset(k, s, count))
              && (k.ndefers > 0 ==> SemReset(k, s, count).currpid == k.currpid)
  {
    hide Inv, InvBut, ReadyAll, DeferStop, Slice;
    InvSized(k);
    if GoodSem(k, s) && count >= 0 {
      InvIsBut(k, s);
      DeferStartKeeps(k, s);
      DeferStarted(k);
      ReadyAllKeeps(DeferStart(k), s, false);
      ReadyAllHeld(DeferStart(k), s, false);
      var k1 := ReadyAll(DeferStart(k), s, false);
      CountKeeps(k1, s, k1.sems[s].(count := count));
      ButIsInv(SetSem(k1, s, k1.sems[s].(count := count)), s);
      GroupSlice(k, DeferStart(k), SetSem(k1, s, k1.sems[s].(count := count)));
    } else {
      SliceSelf(k);
    }
  }

  lemma SemDeleteSlice(k: Kernel, s: int)
    requires Inv(k)
    ensures Sized(k) && Slice(k, SemDelete(k, s)) && (k.ndefers > 0 ==> SemDelete(k, s).currpid == k.currpid)
  {
    hide Inv, InvBut, ReadyAll, DeferStop, Slice;
    InvSized(k);
    if GoodSem(k, s) {
      InvIsBut(k, s);
      var k0 := SetSem(k, s, k.sems[s].(used := false));
      CountKeeps(k, s, k.sems[s].(used := false));
      DeferStartKeeps(k0, s);
      DeferStarted(k0);
      ReadyAllKeeps(DeferStart(k0), s, true);
      ReadyAllHeld(DeferStart(k0), s, true);
      var k1 := ReadyAll(DeferStart(k0), s, true);
      CountKeeps(k1, s, k1.sems[s].(count := k1.sems[s].count + 1));
      ButIsInv(SetSem(k1, s, k1.sems[s].(count := k1.sems[s].count + 1)), s);
      GroupSlice(k, DeferStart(k0), SetSem(k1, s, k1.sems[s].(count := k1.sems[s].count + 1)));
    } else {
      SliceSelf(k);
    }
  }

  // ---------- A tick ----------

  lemma Decremented(k: Kernel)
    requires Inv(k) && k.sleepq != []
    ensures
      var k1 := k.(sleepq := [k.sleepq[0].(key := k.sleepq[0].key - 1)] + k.sleepq[1..]);
      InvTail(k1)
  {
    hide Placed, ByPriority, NullOK, Urgent;
    InvSized(k);
    var k1 := k.(sleepq := [k.sleepq[0].(key := k.sleepq[0].key - 1)] + k.sleepq[1..]);
    assert Pids(k1.sleepq) == Pids(k.sleepq);
    BaseFrame(k, k1);
    UrgentFrame(k, k1);
    assert k1.sleepq[1..] == k.sleepq[1..];
  }

  lemma SleepersSlice(k: Kernel)
    requires Inv(k)
    ensures Sized(k) && Slice(k, TickSleepers(k)) && (k.ndefers > 0 ==> TickSleepers(k).currpid == k.currpid)
  {
    hide Inv, InvTail, DeferStop, WakeLoop, Slice;
    InvSized(k);
    if k.sleepq == [] || k.sleepq[0].key > 1 {
      SliceSelf(k);
      SliceSelf(TickSleepers(k));
      SliceFrom(k, TickSleepers(k), TickSleepers(k));
    } else {
      var k1 := k.(sleepq := [k.sleepq[0].(key := k.sleepq[0].key - 1)] + k.sleepq[1..]);
      Decremented(k);
      DeferTail(k1);
      DeferStarted(k1);
      WakeLoopKeeps(DeferStart(k1));
      WakeLoopHeld(DeferStart(k1));
      GroupSlice(k, DeferStart(k1), WakeLoop(DeferStart(k1)));
    }
  }

  /** A tick takes one off the slice of the current process, if it stays current, and starts a new slice if that was
      the last.  A process that loses the processor in a tick that its slice would have outlasted has that tick
      still to count. */
  lemma TickSlice(k: Kernel)
    requires Inv(k)
    ensures
      var k' := Tick(k);
      && (k'.currpid == k.currpid ==>
            k'.midtick == k.midtick && k'.preempt == if k.preempt > 1 then k.preempt - 1 else QUANTUM)
      && (k'.currpid != k.currpid ==>
            && k'.preempt == (if k'.currpid in k.midtick then QUANTUM - 1 else QUANTUM)
            && (forall p :: p != k.currpid ==> (p in k'.midtick <==> p in k.midtick && p != k'.currpid))
            && (k.preempt > 1 ==> k.currpid in k'.midtick))
      && (k.ndefers > 0 ==> k'.currpid == k.currpid)
  {
    hide Inv, TickSleepers, Resched;
    InvSized(k);
    SleepersSlice(k);
    TickSleepersKeeps(k);
    var k1 := TickSleepers(k);
    if k1.currpid == k.currpid && k1.preempt <= 1 {
      AgainSlice(k1, k1.(preempt := QUANTUM));
    }
  }

  // ---------- Every call ----------

  /** A rescheduling in a state where the current process may have been put elsewhere. */
  lemma AgainSlice(k: Kernel, k1: Kernel)
    requires Inv(k) && Sized(k1) && k1.ready == k.ready && k1.currpid == k.currpid && k1.ndefers == k.ndefers
    ensures Slice(k1, Resched(k1)) && (k.ndefers > 0 ==> Resched(k1).currpid == k.currpid)
  {
    hide Inv, Base, Resched;
    InvSized(k);
    InvBase(k);
    CurrentOff(k);
    ReschedSlice(k1);
    NoDefersKept(k1);
  }

  /** A process that was not current becomes ready. */
  lemma WakeSlice(k: Kernel, k1: Kernel, x: Pid)
    requires Inv(k) && Sized(k1) && k1.ready == k.ready && k1.currpid == k.currpid && k1.ndefers == k.ndefers
    requires IsPid(x) && k.procs[x].state != CURR
    ensures Slice(k1, Ready(k1, x)) && (k.ndefers > 0 ==> Ready(k1, x).currpid == k.currpid)
  {
    hide Inv, Base, Ready;
    InvSized(k);
    InvBase(k);
    CurrentOff(k);
    ReadySlice(k1, x);
  }

  lemma WaitSlice(k: Kernel, s: int)
    requires Inv(k)
    ensures Sized(k) && Slice(k, Wait(k, s)) && (k.ndefers > 0 ==> Wait(k, s).currpid == k.currpid)
  {
    hide Inv, Resched, Slice;
    InvSized(k);
    SliceSelf(k);
    if GoodSem(k, s) {
      var sem := k.sems[s];
      if sem.count > 0 {
        SliceSelf(Wait(k, s));
        SliceFrom(k, Wait(k, s), Wait(k, s));
      } else {
        var k1 := SetSem(k, s, sem.(count := sem.count - 1, queue := sem.queue + [k.currpid]));
        var k2 := k1.(procs := k1.procs[k.currpid := k1.procs[k.currpid].(state := WAIT, sem := s)]);
        AgainSlice(k, k2);
        SliceFrom(k, k2, Wait(k, s));
      }
    }
  }

  lemma SignalSlice(k: Kernel, s: int)
    requires Inv(k)
    ensures Sized(k) && Slice(k, Signal(k, s)) && (k.ndefers > 0 ==> Signal(k, s).currpid == k.currpid)
  {
    hide Inv, Ready, Slice;
    InvSized(k);
    SliceSelf(k);
    if GoodSem(k, s) {
      var sem := k.sems[s];
      if sem.count < 0 && sem.queue != [] && IsPid(sem.queue[0]) {
        var k1 := SetSem(k, s, sem.(count := sem.count + 1, queue := sem.queue[1..]));
        FirstWaits(k, s);
        WakeSlice(k, k1, sem.queue[0]);
        SliceFrom(k, k1, Signal(k, s));
      } else {
        SliceSelf(Signal(k, s));
        SliceFrom(k, Signal(k, s), Signal(k, s));
      }
    }
  }

  lemma FirstWaits(k: Kernel, s: int)
    requires Inv(k) && 0 <= s < NSEM && k.sems[s].queue != [] && IsPid(k.sems[s].queue[0])
    ensures k.procs[k.sems[s].queue[0]].state == WAIT
  {
    hide ByPriority, NullOK, SemsOK, DelaysOK, Running;
    HomeOf(k, k.sems[s].queue[0]);
    assert WaitsIff(k, k.sems[s].queue[0], s);
  }

  lemma ProcessSlice(k: Kernel, p: Pid)
    requires Inv(k)
    ensures Sized(k) && Slice(k, Suspend(k, p)) && (k.ndefers > 0 ==> Suspend(k, p).currpid == k.currpid)
    ensures Slice(k, Resume(k, p)) && (k.ndefers > 0 ==> Resume(k, p).currpid == k.currpid)
    ensures Slice(k, Deliver(k, p)) && (k.ndefers > 0 ==> Deliver(k, p).currpid == k.currpid)
  {
    hide Inv, Resched, Ready, Without, RemoveD;
    InvSized(k);
    if !BadPid(k, p) {
      AgainSlice(k, SetState(k, p, SUSP));
      if k.procs[p].state != CURR {
        WakeSlice(k, k, p);
        WakeSlice(k, k.(sleepq := RemoveD(k.sleepq, p)), p);
      }
    }
  }

  lemma KillSlice(k: Kernel, p: Pid)
    requires Inv(k)
    ensures Sized(k) && (BadPid(k, p) || p == NULLPROC ==> Slice(k, Kill(k, p)))
    ensures !BadPid(k, p) && p != NULLPROC ==> Slice(k.(midtick := k.midtick - {p}), Kill(k, p))
    ensures Kill(k, p).currpid == k.currpid || (p == k.currpid && k.ndefers == 0)
  {
    hide Inv, Resched, Without, RemoveD;
    InvSized(k);
    if !BadPid(k, p) && p != NULLPROC {
      CurrentHere(k);
      if k.procs[p].state == CURR {
        CurrIsCurrent(k, p);
        AgainSlice(k, SetState(k, p, FREE).(midtick := k.midtick - {p}));
      }
    }
  }

  /** What every call does to the slice: only ticks use it up, and only a switch starts a new one. */
  lemma StepSlice(k: Kernel, c: Call)
    requires Inv(k)
    ensures Sized(k)
    ensures c != CTick && !c.CKill? ==> Slice(k, Step(k, c))
    ensures k.ndefers > 0 && c != CDeferStop ==> Step(k, c).currpid == k.currpid
  {
    hide Inv, Resched, Wait, Signal, SemDelete, SemReset, SignalN, Suspend, Resume, Deliver, Kill, Tick, DeferStop,
        FindSem, InsertD;
    InvSized(k);
    match c
    case CWait(s) => WaitSlice(k, s);
    case CSignal(s) => SignalSlice(k, s);
    case CSignalN(s, n) => SignalNSlice(k, s, n);
    case CSemDelete(s) => SemDeleteSlice(k, s);
    case CSemReset(s, n) => SemResetSlice(k, s, n);
    case CSleep(d) =>
      AgainSlice(k, k);
      AgainSlice(k, SetState(k, k.currpid, SLEEP).(sleepq := InsertD(k.sleepq, k.currpid, d)));
    case CRecvTime(d) => AgainSlice(k, SetState(k, k.currpid, RECTIM).(sleepq := InsertD(k.sleepq, k.currpid, d)));
    case CReceive => AgainSlice(k, SetState(k, k.currpid, RECV));
    case CDeliver(p) => ProcessSlice(k, p);
    case CYield => AgainSlice(k, k);
    case CSuspend(p) => ProcessSlice(k, p);
    case CResume(p) => ProcessSlice(k, p);
    case CKill(p) => KillSlice(k, p);
    case CTick => TickSlice(k);
    case CDeferStop => InvBase(k); CurrentOff(k); StopSlice(k);
    case _ =>
  }

  /** The slice over every call: the process that stays current has what it had, less the tick; a new one has a whole
      slice, or a tick less if it was cut short in one.  While rescheduling is deferred, nothing but the end of the
      deferral takes the processor. */
  lemma SliceAfter(k: Kernel, c: Call)
    requires Inv(k)
    ensures
      var k' := Step(k, c);
      && Sized(k)
      && (k'.currpid == k.currpid ==>
            k'.preempt == if c != CTick then k.preempt else if k.preempt > 1 then k.preempt - 1 else QUANTUM)
      && (k'.currpid != k.currpid ==> k'.preempt == if k'.currpid in k.midtick then QUANTUM - 1 else QUANTUM)
      && (k.ndefers > 0 && c != CDeferStop ==> k'.currpid == k.currpid)
  {
    hide Inv, Step;
    StepSlice(k, c);
    if c == CTick { TickSlice(k); TickIs(k); }
    if c.CKill? { KillSlice(k, c.p); KillIs(k, c.p); }
  }

  lemma TickIs(k: Kernel)
    requires Sized(k)
    ensures Step(k, CTick) == Tick(k)
  {
  }

  lemma KillIs(k: Kernel, p: Pid)
    requires Sized(k)
    ensures Step(k, CKill(p)) == Kill(k, p)
  {
  }

  /** Who still has a tick to count: a process that lost the processor in a tick that its slice would have outlasted,
      until it runs again or is killed. */
  lemma CutShort(k: Kernel, c: Call, p: Pid)
    requires Inv(k) && c != CKill(p)
    ensures
      var k' := Step(k, c);
      && Sized(k)
      && (p != k.currpid ==> (p in k'.midtick <==> p in k.midtick && p != k'.currpid))
      && (c != CTick && p !in k.midtick ==> p !in k'.midtick)
      && (c == CTick && k.preempt > 1 && p == k.currpid && p != k'.currpid ==> p in k'.midtick)
  {
    hide Inv, Step;
    InvSized(k);
    StepSlice(k, c);
    if c == CTick { TickSlice(k); TickIs(k); }
    if c.CKill? { KillSlice(k, c.p); KillIs(k, c.p); }
  }

  // ---------- Deferral ----------

  /** Only the two calls for it change the number of deferrals. */
  lemma StepDefers(k: Kernel, c: Call)
    requires Inv(k) && Allowed(k, c) && !c.CDeferStart? && !c.CDeferStop?
    ensures Step(k, c).ndefers == k.ndefers
  {
    hide Inv, Resched, Ready, DeferStart, DeferStop, SignalN, SemCreate, SemDelete, SemReset, SleepAs, Tick, Wait,
        Signal, Suspend, Kill, Deliver, Resume;
    InvSized(k);
    match c
    case CWait(s) => WaitKeeps(k, s);
    case CSignal(s) => SignalDefers(k, s);
    case CSignalN(s, n) => SignalNKeeps(k, s, n);
    case CSemCreate(n) => SemCreateKeeps(k, n);
    case CSemDelete(s) => SemDeleteKeeps(k, s);
    case CSemReset(s, n) => SemResetKeeps(k, s, n);
    case CSleep(d) => if d > 0 { SleepAsKeeps(k, d, SLEEP); } else { NoDefersKept(k); }
    case CRecvTime(d) => if d >= 0 { SleepAsKeeps(k, d, RECTIM); }
    case CReceive => NoDefersKept(SetState(k, k.currpid, RECV));
    case CDeliver(x) => ProcessDefers(k, x);
    case CYield => NoDefersKept(k);
    case CSuspend(x) => ProcessDefers(k, x);
    case CResume(x) => ProcessDefers(k, x);
    case CKill(x) => ProcessDefers(k, x);
    case CCreate(x, prio) =>
    case CTick => TickKeeps(k);
    case CDeferStart =>
    case CDeferStop =>
  }

  lemma SignalDefers(k: Kernel, s: int)
    requires Inv(k)
    ensures Sized(k) && Signal(k, s).ndefers == k.ndefers
  {
    hide Inv, SignalOne;
    InvSized(k);
    if GoodSem(k, s) { SignalOneKeeps(k, s); }
  }

  lemma ProcessDefers(k: Kernel, x: Pid)
    requires Sized(k)
    ensures Deliver(k, x).ndefers == k.ndefers && Suspend(k, x).ndefers == k.ndefers
    ensures Resume(k, x).ndefers == k.ndefers && Kill(k, x).ndefers == k.ndefers
  {
    hide Resched, RemoveD, Without, InsertPos;
    forall k0: Kernel | Sized(k0) ensures Resched(k0).ndefers == k0.ndefers { NoDefersKept(k0); }
  }

  /** A deferral in which nothing happens changes nothing, except that the outermost one forgets earlier attempts. */
  lemma DeferNothing(k: Kernel)
    requires Sized(k) && k.ndefers >= 0
    ensures DeferStop(DeferStart(k)) == k.(attempt := k.ndefers > 0 && k.attempt)
  {
    hide Resched;
  }

  /** Under an outstanding deferral the current process stays, over any run of calls without the end of one. */
  lemma {:induction false} DeferralHolds(k: Kernel, cs: seq<Call>)
    requires Inv(k) && Path(k, cs) && k.ndefers > 0 && CDeferStop !in cs
    ensures Run(k, cs).currpid == k.currpid && Run(k, cs).ndefers >= k.ndefers
    decreases |cs|
  {
    hide Inv, Step;
    if cs != [] {
      SliceAfter(k, cs[0]);
      StepKeeps(k, cs[0]);
      if cs[0] == CDeferStart { StartIs(k); } else { StepDefers(k, cs[0]); }
      DeferralHolds(Step(k, cs[0]), cs[1..]);
    }
  }

  lemma StartIs(k: Kernel)
    requires Sized(k)
    ensures Step(k, CDeferStart).ndefers == k.ndefers + 1
  {
  }
}
