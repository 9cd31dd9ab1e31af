/** The semaphores of the port protocol are those of the kernel: what `PortProtocol` lets `wait`, `signal`,
    `semdelete`, `semreset` and `kill` do to the semaphore of a port is what the kernel calls do to it. */
module PortSems {
  import P = PortProtocol
  import opened KernelState
  import opened KernelSafety
  import opened KernelRuns
  import opened Sequences

  /** A semaphore of the kernel as the port protocol sees it. */
  function SemOf(k: Kernel, s: int): P.Sem
    requires Sized(k) && 0 <= s < NSEM
  {
    P.Sem(k.sems[s].count, k.sems[s].queue)
  }

  lemma CountAndQueue(k: Kernel, s: int)
    requires Inv(k) && GoodSem(k, s)
    ensures |k.sems[s].queue| == if k.sems[s].count < 0 then -k.sems[s].count else 0
  {
    assert SemOK(k.sems[s]);
  }

  /** wait: the caller is queued, and stops running, exactly if the count goes below zero. */
  lemma WaitIsSemWait(k: Kernel, s: int)
    requires Inv(k) && GoodSem(k, s) && Allowed(k, CWait(s))
    ensures
      var k' := Wait(k, s);
      && Sized(k') && SemOf(k', s) == P.SemWait(SemOf(k, s), k.currpid)
      && (k'.procs[k.currpid].state == WAIT <==> k.sems[s].count - 1 < 0)
  {
    hide Inv;
    InvSized(k);
    CurrentNotReady(k);
    var sem := k.sems[s];
    if sem.count - 1 < 0 {
      var k1 := SetSem(k, s, sem.(count := sem.count - 1, queue := sem.queue + [k.currpid]));
      BlockedStays(k1.(procs := k1.procs[k.currpid := k1.procs[k.currpid].(state := WAIT, sem := s)]));
    }
  }

  lemma CurrentNotReady(k: Kernel)
    requires Inv(k)
    ensures Sized(k) && k.currpid !in k.ready
  {
    InvSized(k);
    HomeOf(k, k.currpid);
  }

  lemma BlockedStays(k: Kernel)
    requires Sized(k) && k.ndefers == 0 && k.procs[k.currpid].state == WAIT && k.currpid !in k.ready
    ensures Resched(k).procs[k.currpid].state == WAIT && Resched(k).sems == k.sems
  {
  }

  /** signal: what becomes ready is what the port protocol calls woken. */
  lemma SignalIsSemSignal(k: Kernel, s: int)
    requires Inv(k) && GoodSem(k, s)
    ensures
      var k' := Signal(k, s);
      && Sized(k') && SemOf(k', s) == P.SemSignal(SemOf(k, s)) && Wakes(k, k', P.Woken(SemOf(k, s)))
  {
    hide Inv, SignalOne, Wakes;
    InvSized(k);
    CountAndQueue(k, s);
    SignalOneWakes(k, s);
  }

  lemma {:induction false} ReadyAllCount(k: Kernel, s: int)
    requires InvBut(k, s) && 0 <= s < NSEM
    ensures ReadyAll(k, s, true).sems[s].count == k.sems[s].count + |k.sems[s].queue|
    decreases |k.sems[s].queue|
  {
    hide InvBut, Ready;
    ButSized(k, s);
    var sem := k.sems[s];
    if sem.queue != [] {
      var sem' := sem.(queue := sem.queue[1..], count := sem.count + 1);
      DequeueReady(k, s, sem');
      SemsReady(SetSem(k, s, sem'), sem.queue[0]);
      ReadyAllCount(Ready(SetSem(k, s, sem'), sem.queue[0]), s);
    }
  }

  /** semdelete: everyone waiting is woken, and the count is what the port protocol says. */
  lemma DeleteIsSemDelete(k: Kernel, s: int)
    requires Inv(k) && GoodSem(k, s)
    ensures
      var k' := SemDelete(k, s);
      && Sized(k') && SemOf(k', s) == P.SemDelete(SemOf(k, s)) && Wakes(k, k', SemOf(k, s).queue)
  {
    hide Inv, InvBut, ReadyAll, DeferStop, DeferStart, Wakes;
    InvSized(k);
    CountAndQueue(k, s);
    SemDeleteWakesAll(k, s);
    InvIsBut(k, s);
    var k0 := SetSem(k, s, k.sems[s].(used := false));
    CountKeeps(k, s, k.sems[s].(used := false));
    DeferStartKeeps(k0, s);
    DeferStarted(k0);
    ReadyAllKeeps(DeferStart(k0), s, true);
    ReadyAllCount(DeferStart(k0), s);
    var k1 := ReadyAll(DeferStart(k0), s, true);
    CountKeeps(k1, s, k1.sems[s].(count := k1.sems[s].count + 1));
    var k2 := SetSem(k1, s, k1.sems[s].(count := k1.sems[s].count + 1));
    ButIsInv(k2, s);
    StopRest(k2);
  }

  /** semreset: everyone waiting is woken, and the semaphore starts again. */
  lemma ResetIsNew(k: Kernel, s: int, count: int)
    requires Inv(k) && GoodSem(k, s) && count >= 0
    ensures
      var k' := SemReset(k, s, count);
      && Sized(k') && SemOf(k', s) == P.Sem(count, []) && Wakes(k, k', SemOf(k, s).queue)
  {
    hide Inv, Wakes, SemReset;
    InvSized(k);
    SemResetKeeps(k, s, count);
    InvSized(SemReset(k, s, count));
    SemResetWakesAll(k, s, count);
  }

  /** kill of a process that waits for the semaphore. */
  lemma KillIsSemKill(k: Kernel, p: Pid)
    requires Inv(k) && IsPid(p) && k.procs[p].state == WAIT && p != NULLPROC
    ensures
      var s := k.procs[p].sem;
      0 <= s < NSEM && Sized(Kill(k, p)) && SemOf(Kill(k, p), s) == P.SemKill(SemOf(k, s), p)
  {
    hide Inv, Without;
    InvSized(k);
    WaiterHome(k, p);
  }

  lemma WaiterHome(k: Kernel, p: Pid)
    requires Inv(k) && IsPid(p) && k.procs[p].state == WAIT
    ensures 0 <= k.procs[p].sem < NSEM
  {
    HomeOf(k, p);
  }
}
