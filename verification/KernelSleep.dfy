/** Sleepers are woken on time: the sleep queue is a delta list, and insertion, removal and ticks treat the
    remaining delay of every sleeper as they should. */
module KernelSleep {
  import opened KernelState
  import opened KernelSafety
  import opened KernelRuns
  import opened Sequences

  /** The ticks left to process `p`: the sum of the keys up to its entry. */
  function Due(q: seq<Sleeper>, p: Pid): int {
    if q == [] then 0 else q[0].key + (if q[0].pid == p then 0 else Due(q[1..], p))
  }

  predicate Sleeps(q: seq<Sleeper>, p: Pid) {
    exists i :: 0 <= i < |q| && q[i].pid == p
  }

  lemma SleepsPids(q: seq<Sleeper>, p: Pid)
    ensures Sleeps(q, p) <==> p in Pids(q)
  {
    if Sleeps(q, p) { var i :| 0 <= i < |q| && q[i].pid == p; assert Pids(q)[i] == p; }
    if p in Pids(q) { var i :| 0 <= i < |Pids(q)| && Pids(q)[i] == p; assert q[i].pid == p; }
  }

  lemma SleepsCons(q: seq<Sleeper>, p: Pid)
    requires q != []
    ensures Sleeps(q, p) <==> q[0].pid == p || Sleeps(q[1..], p)
  {
    if Sleeps(q, p) { var i :| 0 <= i < |q| && q[i].pid == p; if i > 0 { assert q[1..][i - 1].pid == p; } }
    if Sleeps(q[1..], p) { var i :| 0 <= i < |q[1..]| && q[1..][i].pid == p; assert q[i + 1].pid == p; }
  }

  /** insertd gives the new sleeper its delay and leaves the delays of the others as they are. */
  lemma {:induction false} InsertDDue(q: seq<Sleeper>, p: Pid, key: int, r: Pid)
    requires !Sleeps(q, p)
    ensures Sleeps(InsertD(q, p, key), p) && Due(InsertD(q, p, key), p) == key
    ensures r != p && Sleeps(q, r) ==> Sleeps(InsertD(q, p, key), r) && Due(InsertD(q, p, key), r) == Due(q, r)
  {
    var q' := InsertD(q, p, key);
    if q == [] {
      SleepsCons(q', p);
    } else {
      SleepsCons(q, p);
      SleepsCons(q, r);
      SleepsCons(q', p);
      SleepsCons(q', r);
      if q[0].key <= key {
        InsertDDue(q[1..], p, key - q[0].key, r);
        assert q'[1..] == InsertD(q[1..], p, key - q[0].key);
      } else {
        var t := q'[1..];
        assert t == [q[0].(key := q[0].key - key)] + q[1..];
        SleepsCons(t, r);
        assert t[1..] == q[1..];
      }
    }
  }

  /** unsleep leaves the delays of the others as they are. */
  lemma {:induction false} RemoveDDue(q: seq<Sleeper>, p: Pid, r: Pid)
    requires r != p && Sleeps(q, r)
    ensures Sleeps(RemoveD(q, p), r) && Due(RemoveD(q, p), r) == Due(q, r)
  {
    var q' := RemoveD(q, p);
    SleepsCons(q, r);
    if q[0].pid != p {
      SleepsCons(q', r);
      assert q'[1..] == RemoveD(q[1..], p);
      if q[0].pid != r { RemoveDDue(q[1..], p, r); }
    } else {
      assert |q| > 1;
      SleepsCons(q[1..], r);
      SleepsCons(q', r);
      assert q'[1..] == q[1..][1..] == q[2..];
    }
  }

  // ---------- Ticks ----------

  function DropDue(q: seq<Sleeper>): seq<Sleeper> {
    if q == [] || q[0].key > 0 then q else DropDue(q[1..])
  }

  /** The sleep queue after a tick. */
  function TickQueue(q: seq<Sleeper>): seq<Sleeper> {
    if q == [] then []
    else if q[0].key - 1 <= 0 then DropDue(q[1..])
    else [q[0].(key := q[0].key - 1)] + q[1..]
  }

  ghost predicate PidsDiffer(q: seq<Sleeper>) {
    forall i, j :: 0 <= i < j < |q| ==> q[i].pid != q[j].pid
  }

  lemma PidsDifferTail(q: seq<Sleeper>)
    requires PidsDiffer(q) && q != []
    ensures PidsDiffer(q[1..]) && !Sleeps(q[1..], q[0].pid)
  {
    var t := q[1..];
    forall i, j | 0 <= i < j < |t| ensures t[i].pid != t[j].pid { assert q[i + 1].pid != q[j + 1].pid; }
    forall i | 0 <= i < |t| ensures t[i].pid != q[0].pid { assert q[0].pid != q[i + 1].pid; }
  }

  lemma {:induction false} DueNonNegative(q: seq<Sleeper>, p: Pid)
    requires KeysOK(q)
    ensures Due(q, p) >= 0
  {
    if q != [] { DueNonNegative(q[1..], p); }
  }

  lemma {:induction false} DropDueSleeps(q: seq<Sleeper>, p: Pid)
    requires !Sleeps(q, p)
    ensures !Sleeps(DropDue(q), p)
  {
    if q != [] && q[0].key <= 0 { SleepsCons(q, p); DropDueSleeps(q[1..], p); }
  }

  /** Exactly the sleepers with nothing left are dropped, and the others keep their delays. */
  lemma {:induction false} DropDueDue(q: seq<Sleeper>, p: Pid)
    requires KeysOK(q) && PidsDiffer(q) && Sleeps(q, p)
    ensures Sleeps(DropDue(q), p) <==> Due(q, p) > 0
    ensures Due(q, p) > 0 ==> Due(DropDue(q), p) == Due(q, p)
  {
    SleepsCons(q, p);
    PidsDifferTail(q);
    if q[0].key > 0 {
      DueNonNegative(q[1..], p);
    } else if q[0].pid == p {
      DropDueSleeps(q[1..], p);
    } else {
      DropDueDue(q[1..], p);
    }
  }

  /** A tick takes one off the remaining delay of every sleeper exactly when the first key is not zero; with a
      zero first key the sleepers behind it lose the tick.  Those with nothing left are woken. */
  lemma TickDue(q: seq<Sleeper>, p: Pid)
    requires KeysOK(q) && PidsDiffer(q) && Sleeps(q, p)
    ensures
      var left := if q[0].key >= 1 then Due(q, p) - 1 else Due(q, p);
      && (Sleeps(TickQueue(q), p) <==> left > 0)
      && (left > 0 ==> Due(TickQueue(q), p) == left)
  {
    SleepsCons(q, p);
    PidsDifferTail(q);
    DueNonNegative(q[1..], p);
    var q' := TickQueue(q);
    if q[0].key - 1 <= 0 {
      if q[0].pid == p { DropDueSleeps(q[1..], p); } else { DropDueDue(q[1..], p); }
    } else {
      SleepsCons(q', p);
      assert q'[1..] == q[1..];
    }
  }

  /** ... so for a sleeper with some delay left, the tick counts if and only if the first key is not zero. */
  lemma TickCountsIff(q: seq<Sleeper>, p: Pid)
    requires KeysOK(q) && PidsDiffer(q) && Sleeps(q, p) && Due(q, p) >= 1
    ensures
      (if Sleeps(TickQueue(q), p) then Due(TickQueue(q), p) else 0) == Due(q, p) - 1 <==> q[0].key >= 1
  {
    TickDue(q, p);
  }

  // ---------- What the calls do to the sleep queue ----------

  lemma ReschedSleepq(k: Kernel)
    requires Sized(k)
    ensures Resched(k).sleepq == k.sleepq
  {
  }

  lemma StopSleepq(k: Kernel)
    requires Sized(k)
    ensures DeferStop(k).sleepq == k.sleepq
  {
    hide Resched;
    if k.ndefers > 0 { ReschedSleepq(k.(ndefers := 0)); }
  }

  lemma {:induction false} SignalLoopSleepq(k: Kernel, s: int, n: nat)
    requires Sized(k) && 0 <= s < NSEM
    ensures SignalLoop(k, s, n).sleepq == k.sleepq
    decreases n
  {
    hide Resched;
    if n > 0 {
      SignalOneSleepq(k, s);
      SignalLoopSleepq(SignalOne(k, s), s, n - 1);
    }
  }

  lemma SignalOneSleepq(k: Kernel, s: int)
    requires Sized(k) && 0 <= s < NSEM
    ensures SignalOne(k, s).sleepq == k.sleepq
  {
    hide Ready;
    var sem := k.sems[s];
    if sem.count < 0 && sem.queue != [] && IsPid(sem.queue[0]) {
      SleepReady(SetSem(k, s, sem.(count := sem.count + 1, queue := sem.queue[1..])), sem.queue[0]);
    }
  }

  lemma {:induction false} ReadyAllSleepq(k: Kernel, s: int, countUp: bool)
    requires Sized(k) && 0 <= s < NSEM
    ensures ReadyAll(k, s, countUp).sleepq == k.sleepq
    decreases |k.sems[s].queue|
  {
    hide Ready;
    var sem := k.sems[s];
    if sem.queue != [] && IsPid(sem.queue[0]) {
      var k1 := SetSem(k, s, sem.(queue := sem.queue[1..], count := if countUp then sem.count + 1 else sem.count));
      SleepReady(k1, sem.queue[0]);
      SemsReady(k1, sem.queue[0]);
      ReadyAllSleepq(Ready(k1, sem.queue[0]), s, countUp);
    }
  }

  lemma {:induction false} WakeLoopSleepq(k: Kernel)
    requires Sized(k) && AllPids(Pids(k.sleepq))
    ensures WakeLoop(k).sleepq == DropDue(k.sleepq)
    decreases |k.sleepq|
  {
    hide Ready;
    if k.sleepq != [] && k.sleepq[0].key <= 0 {
      assert Pids(k.sleepq)[0] == k.sleepq[0].pid;
      var k1 := k.(sleepq := k.sleepq[1..]);
      SleepReady(k1, k.sleepq[0].pid);
      assert forall i :: 0 <= i < |k1.sleepq| ==> Pids(k1.sleepq)[i] == Pids(k.sleepq)[i + 1];
      WakeLoopSleepq(Ready(k1, k.sleepq[0].pid));
    }
  }

  lemma TickSleepq(k: Kernel)
    requires Sized(k) && AllPids(Pids(k.sleepq))
    ensures Tick(k).sleepq == TickQueue(k.sleepq)
  {
    hide Resched, TickSleepers;
    var t := TickSleepers(k);
    SleepersSleepq(k);
    if t.currpid == k.currpid && t.preempt - 1 <= 0 { ReschedSleepq(t.(preempt := QUANTUM)); }
  }

  lemma SleepersSleepq(k: Kernel)
    requires Sized(k) && AllPids(Pids(k.sleepq))
    ensures TickSleepers(k).sleepq == TickQueue(k.sleepq)
  {
    hide WakeLoop, DeferStop;
    if k.sleepq != [] {
      var h := k.sleepq[0].(key := k.sleepq[0].key - 1);
      var k1 := k.(sleepq := [h] + k.sleepq[1..]);
      if h.key <= 0 {
        assert Pids(k1.sleepq) == Pids(k.sleepq);
        WakeLoopSleepq(DeferStart(k1));
        StopSleepq(WakeLoop(DeferStart(k1)));
        assert k1.sleepq[1..] == k.sleepq[1..];
      }
    }
  }

  lemma DeleteSleepq(k: Kernel, s: int)
    requires Sized(k)
    ensures SemDelete(k, s).sleepq == k.sleepq
  {
    hide ReadyAll, DeferStop;
    if GoodSem(k, s) {
      var k0 := DeferStart(SetSem(k, s, k.sems[s].(used := false)));
      ReadyAllSleepq(k0, s, true);
      var k1 := ReadyAll(k0, s, true);
      StopSleepq(SetSem(k1, s, k1.sems[s].(count := k1.sems[s].count + 1)));
    }
  }

  lemma ResetSleepq(k: Kernel, s: int, n: int)
    requires Sized(k)
    ensures SemReset(k, s, n).sleepq == k.sleepq
  {
    hide ReadyAll, DeferStop;
    if n >= 0 && GoodSem(k, s) {
      ReadyAllSleepq(DeferStart(k), s, false);
      var k1 := ReadyAll(DeferStart(k), s, false);
      StopSleepq(SetSem(k1, s, k1.sems[s].(count := n)));
    }
  }

  lemma WaitSleepq(k: Kernel, s: int)
    requires Sized(k)
    ensures Wait(k, s).sleepq == k.sleepq
  {
    hide Resched;
    if GoodSem(k, s) {
      var sem := k.sems[s];
      var k1 := SetSem(k, s, sem.(count := sem.count - 1, queue := sem.queue + [k.currpid]));
      ReschedSleepq(k1.(procs := k1.procs[k.currpid := k1.procs[k.currpid].(state := WAIT, sem := s)]));
    }
  }

  lemma KillSleepq(k: Kernel, p: Pid)
    requires Sized(k)
    ensures Kill(k, p).sleepq == if !BadPid(k, p) && p != NULLPROC
              && Asleep(k.procs[p].state) then RemoveD(k.sleepq, p) else k.sleepq
  {
    hide Resched, RemoveD, Without;
    if IsPid(p) { ReschedSleepq(SetState(k, p, FREE).(midtick := k.midtick - {p})); }
  }

  lemma DeliverSleepq(k: Kernel, p: Pid)
    requires Sized(k)
    ensures Deliver(k, p).sleepq == if !BadPid(k, p)
              && k.procs[p].state == RECTIM then RemoveD(k.sleepq, p) else k.sleepq
  {
    hide Ready, RemoveD;
    if IsPid(p) {
      SleepReady(k, p);
      SleepReady(k.(sleepq := RemoveD(k.sleepq, p)), p);
    }
  }

  /** Which call changes the sleep queue, and how. */
  lemma StepSleepq(k: Kernel, c: Call)
    requires Inv(k) && Allowed(k, c)
    ensures
      Step(k, c).sleepq ==
      match c
      case CSleep(d) => if d > 0 then InsertD(k.sleepq, k.currpid, d) else k.sleepq
      case CRecvTime(d) => if d >= 0 then InsertD(k.sleepq, k.currpid, d) else k.sleepq
      case CKill(p) => if !BadPid(k, p) && p != NULLPROC
          && Asleep(k.procs[p].state) then RemoveD(k.sleepq, p) else k.sleepq
      case CDeliver(p) => if !BadPid(k, p) && k.procs[p].state == RECTIM then RemoveD(k.sleepq, p) else k.sleepq
      case CTick => TickQueue(k.sleepq)
      case _ => k.sleepq
  {
    hide Inv, Resched, Ready, Tick, SignalLoop, DeferStop, FindSem, SignalOne, SemDelete, SemReset, Without, InsertD,
        RemoveD, Wait, Kill, Deliver;
    InvSized(k);
    match c
    case CTick => QueuePids(k); TickSleepq(k);
    case CSignal(s) => if GoodSem(k, s) { SignalOneSleepq(k, s); }
    case CSignalN(s, n) =>
      if GoodSem(k, s) && n >= 0 {
        DeferStarted(k);
        SignalLoopSleepq(DeferStart(k), s, n);
        StopSleepq(SignalLoop(DeferStart(k), s, n));
      }
    case CSemDelete(s) => DeleteSleepq(k, s);
    case CSemReset(s, n) => ResetSleepq(k, s, n);
    case CDeferStop => StopSleepq(k);
    case CWait(s) => WaitSleepq(k, s);
    case CSleep(d) =>
      ReschedSleepq(k);
      ReschedSleepq(SetState(k, k.currpid, SLEEP).(sleepq := InsertD(k.sleepq, k.currpid, d)));
    case CRecvTime(d) => ReschedSleepq(SetState(k, k.currpid, RECTIM).(sleepq := InsertD(k.sleepq, k.currpid, d)));
    case CReceive => ReschedSleepq(SetState(k, k.currpid, RECV));
    case CYield => ReschedSleepq(k);
    case CSuspend(p) => if IsPid(p) { ReschedSleepq(SetState(k, p, SUSP)); }
    case CResume(p) => if IsPid(p) { SleepReady(k, p); }
    case CKill(p) => KillSleepq(k, p);
    case CDeliver(p) => DeliverSleepq(k, p);
    case _ =>
  }

  lemma QueuePids(k: Kernel)
    requires Inv(k)
    ensures Sized(k) && AllPids(Pids(k.sleepq)) && KeysOK(k.sleepq) && PidsDiffer(k.sleepq)
    ensures forall p :: IsPid(p) ==> (Sleeps(k.sleepq, p) <==> Asleep(k.procs[p].state))
  {
    BaseQueues(k, NOHOLE);
    var q := Pids(k.sleepq);
    forall i, j | 0 <= i < j < |k.sleepq| ensures k.sleepq[i].pid != k.sleepq[j].pid { assert Differ(q, i, j); }
    forall p | IsPid(p) ensures Sleeps(k.sleepq, p) <==> Asleep(k.procs[p].state) {
      HomeOf(k, p);
      SleepsPids(k.sleepq, p);
    }
  }

  // ---------- On time ----------

  /** The first key is not zero, so that the next tick counts: what recvtime(0) breaks. */
  predicate HeadPositive(q: seq<Sleeper>) {
    q == [] || q[0].key >= 1
  }

  lemma {:induction false} DropDueHead(q: seq<Sleeper>)
    ensures HeadPositive(DropDue(q))
  {
    if q != [] && q[0].key <= 0 { DropDueHead(q[1..]); }
  }

  lemma StepHead(k: Kernel, c: Call)
    requires Inv(k) && Allowed(k, c) && HeadPositive(k.sleepq) && c != CRecvTime(0)
    ensures HeadPositive(Step(k, c).sleepq)
  {
    hide Inv, Step;
    InvSized(k);
    StepSleepq(k, c);
    QueuePids(k);
    if c.CTick? && k.sleepq != [] { DropDueHead(k.sleepq[1..]); }
  }

  /** The call neither kills process `p`, nor sends it a message while it waits for one with a time limit. */
  predicate LeavesAsleep(c: Call, p: Pid, st: PrState) {
    c != CKill(p) && (st == RECTIM ==> c != CDeliver(p))
  }

  ghost predicate AllLeaveAsleep(cs: seq<Call>, p: Pid, st: PrState) {
    forall i :: 0 <= i < |cs| ==> LeavesAsleep(cs[i], p, st)
  }

  function Ticks(cs: seq<Call>): nat {
    if cs == [] then 0 else (if cs[0].CTick? then 1 else 0) + Ticks(cs[1..])
  }

  /** The ticks of a run that meet a zero first key. */
  function LostTicks(k: Kernel, cs: seq<Call>): (n: nat)
    requires Path(k, cs)
    ensures n <= Ticks(cs)
    decreases |cs|
  {
    if cs == [] then 0
    else (if cs[0].CTick? && !HeadPositive(k.sleepq) then 1 else 0) + LostTicks(Step(k, cs[0]), cs[1..])
  }

  /** One call: a sleeper with `n` ticks left has `n - 1` after a tick, if the first key was not zero, and `n`
      after any other call, and is ready or running exactly when a tick leaves none. */
  lemma StepDue(k: Kernel, c: Call, p: Pid)
    requires Inv(k) && Allowed(k, c)
    requires IsPid(p) && Asleep(k.procs[p].state) && LeavesAsleep(c, p, k.procs[p].state)
    ensures
      var k' := Step(k, c);
      var left := Due(k.sleepq, p) - (if c.CTick? && HeadPositive(k.sleepq) then 1 else 0);
      && Sized(k') && Inv(k')
      && (Asleep(k'.procs[p].state) <==> !c.CTick? || left > 0)
      && (Asleep(k'.procs[p].state) ==> Due(k'.sleepq, p) == left)
      && (HeadPositive(k.sleepq) ==> Due(k.sleepq, p) >= 1)
  {
    hide Inv, Step, InsertD, RemoveD, TickQueue, Due;
    InvSized(k);
    StepKeeps(k, c);
    InvSized(Step(k, c));
    StepSleepq(k, c);
    QueuePids(k);
    QueuePids(Step(k, c));
    if HeadPositive(k.sleepq) { HeadDue(k.sleepq, p); }
    match c
    case CTick => TickDue(k.sleepq, p);
    case CSleep(d) => CurrentAwake(k); InsertDDue(k.sleepq, k.currpid, d, p);
    case CRecvTime(d) => CurrentAwake(k); InsertDDue(k.sleepq, k.currpid, d, p);
    case CKill(r) => if r != p { RemoveDDue(k.sleepq, r, p); }
    case CDeliver(r) => if r != p { RemoveDDue(k.sleepq, r, p); }
    case _ =>
  }

  lemma HeadDue(q: seq<Sleeper>, p: Pid)
    requires HeadPositive(q) && KeysOK(q) && Sleeps(q, p)
    ensures Due(q, p) >= 1
  {
    DueNonNegative(q[1..], p);
  }

  lemma CurrentAwake(k: Kernel)
    requires Inv(k)
    ensures Sized(k) && k.procs[k.currpid].state == CURR && !Sleeps(k.sleepq, k.currpid)
  {
    InvSized(k);
    QueuePids(k);
  }

  /** State `b` comes from state `a` by rescheduling: nothing, or ready or running. */
  predicate Kept(a: PrState, b: PrState) {
    b == a || b == READY || b == CURR
  }

  /** A call other than its killing leaves a sleeper asleep in the same way, or makes it ready or running. */
  lemma StepState(k: Kernel, c: Call, p: Pid)
    requires Inv(k) && Allowed(k, c) && IsPid(p) && Asleep(k.procs[p].state) && c != CKill(p)
    ensures Sized(Step(k, c)) && Kept(k.procs[p].state, Step(k, c).procs[p].state)
  {
    hide Inv, SignalN, Tick, DeferStop, SemDelete, SemReset, SemCreate, Signal, Step;
    InvSized(k);
    if c.CWait? || c.CSleep? || c.CRecvTime? || c.CReceive? || c.CYield? {
      BlockKept(k, c, p);
    } else if c.CSuspend? || c.CResume? || c.CKill? || c.CDeliver? || c.CCreate? {
      ProcessKept(k, c, p);
    } else {
      OtherKept(k, c, p);
    }
  }

  /** Calls that may take the processor from the caller. */
  lemma BlockKept(k: Kernel, c: Call, p: Pid)
    requires Inv(k) && IsPid(p) && Asleep(k.procs[p].state)
              && (c.CWait? || c.CSleep? || c.CRecvTime? || c.CReceive? || c.CYield?)
    ensures Sized(Step(k, c)) && Kept(k.procs[p].state, Step(k, c).procs[p].state)
  {
    hide Inv, InsertD, Resched;
    InvSized(k);
    match c
    case CWait(s) =>
      if GoodSem(k, s) {
        var sem := k.sems[s];
        var k1 := SetSem(k, s, sem.(count := sem.count - 1, queue := sem.queue + [k.currpid]));
        ReschedKept(k1.(procs := k1.procs[k.currpid := k1.procs[k.currpid].(state := WAIT, sem := s)]), p);
      }
    case CSleep(d) =>
      ReschedKept(k, p);
      ReschedKept(SetState(k, k.currpid, SLEEP).(sleepq := InsertD(k.sleepq, k.currpid, d)), p);
    case CRecvTime(d) => ReschedKept(SetState(k, k.currpid, RECTIM).(sleepq := InsertD(k.sleepq, k.currpid, d)), p);
    case CReceive => ReschedKept(SetState(k, k.currpid, RECV), p);
    case CYield => ReschedKept(k, p);
  }

  /** Calls on another process. */
  lemma ProcessKept(k: Kernel, c: Call, p: Pid)
    requires Inv(k) && IsPid(p) && Asleep(k.procs[p].state) && c != CKill(p)
    requires c.CSuspend? || c.CResume? || c.CKill? || c.CDeliver? || c.CCreate?
    ensures Sized(Step(k, c)) && Kept(k.procs[p].state, Step(k, c).procs[p].state)
  {
    hide Inv, RemoveD, Without, Resched, Ready;
    InvSized(k);
    match c
    case CSuspend(r) => if IsPid(r) { ReschedKept(SetState(k, r, SUSP), p); }
    case CResume(r) => if IsPid(r) { ReadyKept(k, r, p); }
    case CKill(r) => if IsPid(r) { ReschedKept(SetState(k, r, FREE).(midtick := k.midtick - {r}), p); }
    case CDeliver(r) =>
      if IsPid(r) {
        ReadyKept(k, r, p);
        ReadyKept(k.(sleepq := RemoveD(k.sleepq, r)), r, p);
      }
    case CCreate(_, _) =>
  }

  lemma OtherKept(k: Kernel, c: Call, p: Pid)
    requires Inv(k) && IsPid(p) && Asleep(k.procs[p].state)
    requires !(c.CWait? || c.CSleep? || c.CRecvTime? || c.CReceive? || c.CYield? || c.CSuspend? || c.CResume?
              || c.CKill? || c.CDeliver? || c.CCreate?)
    ensures Sized(Step(k, c)) && Kept(k.procs[p].state, Step(k, c).procs[p].state)
  {
    hide Inv, SignalLoop, FindSem, Tick, DeferStop, SignalOne, SemDelete, SemReset;
    InvSized(k);
    match c
    case CTick => TickKeeps(k); InvSized(Tick(k)); TickKept(k, p);
    case CSignal(s) => if GoodSem(k, s) { SignalKept(k, s, 1, p); SignalOneIsLoop(k, s); }
    case CSignalN(s, n) =>
      if GoodSem(k, s) && n >= 0 {
        SignalKept(DeferStart(k), s, n, p);
        StopKept(SignalLoop(DeferStart(k), s, n), p);
      }
    case CSemDelete(s) => DeleteKept(k, s, p);
    case CSemReset(s, n) => ResetKept(k, s, n, p);
    case CDeferStop => StopKept(k, p);
    case _ =>
  }

  lemma DeleteKept(k: Kernel, s: int, p: Pid)
    requires Sized(k) && IsPid(p)
    ensures Sized(SemDelete(k, s)) && Kept(k.procs[p].state, SemDelete(k, s).procs[p].state)
  {
    hide ReadyAll, DeferStop;
    if GoodSem(k, s) {
      var k0 := DeferStart(SetSem(k, s, k.sems[s].(used := false)));
      ReadyAllKept(k0, s, true, p);
      var k1 := ReadyAll(k0, s, true);
      StopKept(SetSem(k1, s, k1.sems[s].(count := k1.sems[s].count + 1)), p);
    }
  }

  lemma ResetKept(k: Kernel, s: int, n: int, p: Pid)
    requires Sized(k) && IsPid(p)
    ensures Sized(SemReset(k, s, n)) && Kept(k.procs[p].state, SemReset(k, s, n).procs[p].state)
  {
    hide ReadyAll, DeferStop;
    if n >= 0 && GoodSem(k, s) {
      ReadyAllKept(DeferStart(k), s, false, p);
      var k1 := ReadyAll(DeferStart(k), s, false);
      StopKept(SetSem(k1, s, k1.sems[s].(count := n)), p);
    }
  }

  lemma ReschedKept(k: Kernel, p: Pid)
    requires Sized(k) && IsPid(p)
    ensures Kept(k.procs[p].state, Resched(k).procs[p].state)
  {
  }

  lemma ReadyKept(k: Kernel, r: Pid, p: Pid)
    requires Sized(k) && IsPid(p) && IsPid(r)
    ensures Kept(k.procs[p].state, Ready(k, r).procs[p].state)
  {
    hide Resched;
    ReschedKept(Insert(SetState(k, r, READY), r), p);
  }

  lemma StopKept(k: Kernel, p: Pid)
    requires Sized(k) && IsPid(p)
    ensures Kept(k.procs[p].state, DeferStop(k).procs[p].state)
  {
    hide Resched;
    ReschedKept(k.(ndefers := 0), p);
  }

  lemma SignalOneIsLoop(k: Kernel, s: int)
    requires Sized(k) && 0 <= s < NSEM
    ensures SignalLoop(k, s, 1) == SignalOne(k, s)
  {
    hide SignalOne;
    assert SignalLoop(SignalOne(k, s), s, 0) == SignalOne(k, s);
  }

  lemma {:induction false} SignalKept(k: Kernel, s: int, n: nat, p: Pid)
    requires Sized(k) && 0 <= s < NSEM && IsPid(p)
    ensures Kept(k.procs[p].state, SignalLoop(k, s, n).procs[p].state)
    decreases n
  {
    hide Ready;
    if n > 0 {
      var sem := k.sems[s];
      if sem.count < 0 && sem.queue != [] && IsPid(sem.queue[0]) {
        ReadyKept(SetSem(k, s, sem.(count := sem.count + 1, queue := sem.queue[1..])), sem.queue[0], p);
      }
      SignalKept(SignalOne(k, s), s, n - 1, p);
    }
  }

  lemma {:induction false} ReadyAllKept(k: Kernel, s: int, countUp: bool, p: Pid)
    requires Sized(k) && 0 <= s < NSEM && IsPid(p)
    ensures Kept(k.procs[p].state, ReadyAll(k, s, countUp).procs[p].state)
    decreases |k.sems[s].queue|
  {
    hide Ready;
    var sem := k.sems[s];
    if sem.queue != [] && IsPid(sem.queue[0]) {
      var k1 := SetSem(k, s, sem.(queue := sem.queue[1..], count := if countUp then sem.count + 1 else sem.count));
      ReadyKept(k1, sem.queue[0], p);
      SemsReady(k1, sem.queue[0]);
      ReadyAllKept(Ready(k1, sem.queue[0]), s, countUp, p);
    }
  }

  lemma {:induction false} WakeKept(k: Kernel, p: Pid)
    requires Sized(k) && IsPid(p)
    ensures Kept(k.procs[p].state, WakeLoop(k).procs[p].state)
    decreases |k.sleepq|
  {
    hide Ready;
    if k.sleepq != [] && k.sleepq[0].key <= 0 && IsPid(k.sleepq[0].pid) {
      var k1 := k.(sleepq := k.sleepq[1..]);
      ReadyKept(k1, k.sleepq[0].pid, p);
      SleepReady(k1, k.sleepq[0].pid);
      WakeKept(Ready(k1, k.sleepq[0].pid), p);
    }
  }

  lemma TickKept(k: Kernel, p: Pid)
    requires Sized(k) && IsPid(p)
    ensures Kept(k.procs[p].state, Tick(k).procs[p].state)
  {
    hide Resched, WakeLoop, DeferStop;
    var t := TickSleepers(k);
    if k.sleepq != [] {
      var k1 := k.(sleepq := [k.sleepq[0].(key := k.sleepq[0].key - 1)] + k.sleepq[1..]);
      WakeKept(DeferStart(k1), p);
      StopKept(WakeLoop(DeferStart(k1)), p);
    }
    ReschedKept(t.(preempt := QUANTUM), p);
  }

  /** A process that sleeps with `n` ticks left, and is neither killed nor sent an awaited message, sleeps on
      through every run of calls with fewer than `n` ticks that count; at the `n`-th tick of a run it is ready or
      running if and only if no tick of the run met a zero first key. */
  lemma {:induction false} WokenOnTime(k: Kernel, cs: seq<Call>, p: Pid, st: PrState)
    requires Inv(k) && Path(k, cs) && IsPid(p) && Asleep(k.procs[p].state)
    requires st == RECTIM || k.procs[p].state == SLEEP
    requires AllLeaveAsleep(cs, p, st)
    ensures
      var k' := Run(k, cs);
      var counted := Ticks(cs) - LostTicks(k, cs);
      && Sized(k')
      && (counted < Due(k.sleepq, p) ==>
            k'.procs[p].state == k.procs[p].state && Due(k'.sleepq, p) == Due(k.sleepq, p) - counted)
      && (Ticks(cs) == Due(k.sleepq, p) && cs != [] && cs[|cs| - 1] == CTick ==>
            (Active(k'.procs[p].state) <==> LostTicks(k, cs) == 0))
    decreases |cs|
  {
    hide Inv, Step, Due, HeadPositive;
    InvSized(k);
    if cs != [] {
      var c := cs[0];
      assert LeavesAsleep(c, p, st);
      StepDue(k, c, p);
      StepState(k, c, p);
      var k1 := Step(k, c);
      assert forall i :: 0 <= i < |cs[1..]| ==> cs[1..][i] == cs[i + 1];
      if Asleep(k1.procs[p].state) {
        WokenOnTime(k1, cs[1..], p, st);
        if |cs| > 1 { assert cs[1..][|cs| - 2] == cs[|cs| - 1]; }
      } else {
        RunSized(k1, cs[1..]);
        if |cs| > 1 && cs[|cs| - 1] == CTick { LastTick(cs[1..]); assert cs[1..][|cs| - 2] == CTick; }
      }
    }
  }

  lemma RunSized(k: Kernel, cs: seq<Call>)
    requires Inv(k) && Path(k, cs)
    ensures Sized(Run(k, cs))
  {
    RunKeeps(k, cs);
    InvSized(Run(k, cs));
  }

  lemma {:induction false} LastTick(cs: seq<Call>)
    requires cs != [] && cs[|cs| - 1] == CTick
    ensures Ticks(cs) >= 1
  {
    if |cs| > 1 {
      assert cs[1..][|cs| - 2] == CTick;
      LastTick(cs[1..]);
    }
  }

  /** recvtime(0) makes the next tick a lost one: nobody who slept before gets any nearer to waking up. */
  lemma ZeroWaitLosesTick(k: Kernel, p: Pid)
    requires Inv(k) && Allowed(k, CRecvTime(0)) && IsPid(p) && Asleep(k.procs[p].state) && Due(k.sleepq, p) >= 1
    ensures
      var k1 := Step(k, CRecvTime(0));
      && Sized(k1) && Inv(k1) && Path(k1, [CTick]) && LostTicks(k1, [CTick]) == 1
      && Sized(Step(k1, CTick)) && Asleep(Step(k1, CTick).procs[p].state)
      && Due(Step(k1, CTick).sleepq, p) == Due(k.sleepq, p)
  {
    hide Inv, Step, Due, InsertD;
    InvSized(k);
    var k1 := Step(k, CRecvTime(0));
    StepDue(k, CRecvTime(0), p);
    StepSleepq(k, CRecvTime(0));
    QueuePids(k);
    InsertZeroHead(k.sleepq, k.currpid);
    StepDue(k1, CTick, p);
    TickPath(k1);
  }

  lemma InsertZeroHead(q: seq<Sleeper>, p: Pid)
    requires KeysOK(q)
    ensures !HeadPositive(InsertD(q, p, 0))
  {
  }

  lemma TickPath(k: Kernel)
    requires Inv(k) && Sized(Step(k, CTick))
    ensures Sized(k) && Path(k, [CTick]) && LostTicks(k, [CTick]) == (if HeadPositive(k.sleepq) then 0 else 1)
  {
    hide Inv, Step, HeadPositive;
    InvSized(k);
    var cs := [CTick];
    assert Allowed(k, CTick);
    assert cs[1..] == [];
    assert Path(Step(k, CTick), cs[1..]);
  }

  /** sleepms(n), n at least 1: the caller sleeps through fewer than `n` ticks, and is ready or running at the
      `n`-th if and only if no tick in between met a zero first key. */
  lemma SleepIsExact(k: Kernel, n: int, cs: seq<Call>)
    requires Inv(k) && n >= 1 && Allowed(k, CSleep(n))
    requires Path(Step(k, CSleep(n)), cs) && AllLeaveAsleep(cs, k.currpid, SLEEP)
    ensures
      var p, k1 := k.currpid, Step(k, CSleep(n));
      var k' := Run(k1, cs);
      && Sized(k')
      && (Ticks(cs) < n ==> k'.procs[p].state == SLEEP)
      && (Ticks(cs) == n && cs[|cs| - 1] == CTick ==> (Active(k'.procs[p].state) <==> LostTicks(k1, cs) == 0))
  {
    hide Inv, Resched, Run, Path, LostTicks;
    InvSized(k);
    var p := k.currpid;
    var k1 := Step(k, CSleep(n));
    StepKeeps(k, CSleep(n));
    StepSleepq(k, CSleep(n));
    CurrentAwake(k);
    InsertDDue(k.sleepq, p, n, p);
    InvSized(k1);
    QueuePids(k1);
    ReschedKept(SetState(k, p, SLEEP).(sleepq := InsertD(k.sleepq, p, n)), p);
    WokenOnTime(k1, cs, p, SLEEP);
  }

  predicate NoZeroWait(cs: seq<Call>) {
    forall i :: 0 <= i < |cs| ==> cs[i] != CRecvTime(0)
  }

  /** Without recvtime(0) no tick is lost. */
  lemma {:induction false} RunHead(k: Kernel, cs: seq<Call>)
    requires Inv(k) && HeadPositive(k.sleepq) && Path(k, cs) && NoZeroWait(cs)
    ensures HeadPositive(Run(k, cs).sleepq) && Inv(Run(k, cs)) && LostTicks(k, cs) == 0
    decreases |cs|
  {
    hide Inv, Step, HeadPositive;
    if cs != [] {
      StepHead(k, cs[0]);
      StepKeeps(k, cs[0]);
      RunHead(Step(k, cs[0]), cs[1..]);
    }
  }

  function ZeroWaits(cs: seq<Call>): nat {
    if cs == [] then 0 else (if cs[0] == CRecvTime(0) then 1 else 0) + ZeroWaits(cs[1..])
  }

  /** Each recvtime(0) costs at most one tick. */
  lemma {:induction false} LostAtMost(k: Kernel, cs: seq<Call>)
    requires Inv(k) && Path(k, cs)
    ensures LostTicks(k, cs) <= ZeroWaits(cs) + (if HeadPositive(k.sleepq) then 0 else 1)
    decreases |cs|
  {
    hide Inv, Step, HeadPositive;
    if cs != [] {
      StepKeeps(k, cs[0]);
      InvSized(k);
      if cs[0].CTick? { TickHead(k); }
      else if HeadPositive(k.sleepq) && cs[0] != CRecvTime(0) { StepHead(k, cs[0]); }
      LostAtMost(Step(k, cs[0]), cs[1..]);
    }
  }

  lemma TickHead(k: Kernel)
    requires Inv(k)
    ensures Sized(k) && HeadPositive(Step(k, CTick).sleepq)
  {
    hide Inv, Step;
    InvSized(k);
    assert Allowed(k, CTick);
    StepSleepq(k, CTick);
    if k.sleepq != [] { DropDueHead(k.sleepq[1..]); }
  }

  /** In every state that the kernel reaches without recvtime(0), a sleep of `n` ticks takes exactly `n`, if there
      is no recvtime(0) meanwhile. */
  lemma EverySleepIsExact(ds: seq<Call>, n: int, cs: seq<Call>)
    requires Path(Boot(), ds) && NoZeroWait(ds) && n >= 1
    requires
      var k := Run(Boot(), ds);
      && Sized(k) && Allowed(k, CSleep(n)) && Path(Step(k, CSleep(n)), cs)
      && AllLeaveAsleep(cs, k.currpid, SLEEP) && NoZeroWait(cs)
    ensures
      var k := Run(Boot(), ds);
      var k' := Run(Step(k, CSleep(n)), cs);
      && Sized(k')
      && (Ticks(cs) < n ==> k'.procs[k.currpid].state == SLEEP)
      && (Ticks(cs) == n && cs[|cs| - 1] == CTick ==> Active(k'.procs[k.currpid].state))
  {
    hide Inv, Step, Run, Path, LostTicks;
    BootInv();
    assert Boot().sleepq == [];
    RunHead(Boot(), ds);
    var k := Run(Boot(), ds);
    StepHead(k, CSleep(n));
    StepKeeps(k, CSleep(n));
    RunHead(Step(k, CSleep(n)), cs);
    SleepIsExact(k, n, cs);
  }
}
