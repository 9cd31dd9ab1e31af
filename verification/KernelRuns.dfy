/** What runs of kernel calls promise: who runs, who is woken and when. */
module KernelRuns {
  import opened KernelState
  import opened KernelSafety
  import opened Sequences

  // ---------- Who runs ----------

  /** In every reachable state with no deferral outstanding, no ready process has a higher priority than the
      current one, and the null process runs only when no other process is ready. */
  lemma MostUrgentRuns(cs: seq<Call>, p: Pid)
    requires Path(Boot(), cs) && IsPid(p)
    ensures
      var k := Run(Boot(), cs);
      && Sized(k)
      && (k.ndefers == 0 && k.procs[p].state == READY ==> k.procs[p].prio <= k.procs[k.currpid].prio)
      && (k.ndefers == 0 && k.procs[p].state == READY && k.currpid == NULLPROC ==> p == NULLPROC)
  {
    hide Path, Run, Placed, ByPriority;
    BootInv();
    RunKeeps(Boot(), cs);
    var k := Run(Boot(), cs);
    InvSized(k);
    if k.ndefers == 0 && k.procs[p].state == READY {
      HomeOf(k, p);
      var i :| 0 <= i < |k.ready| && k.ready[i] == p;
      assert NotBefore(k, k.currpid, k.ready[i]);
      assert PrioOK(k, p) && PrioOK(k, k.currpid);
    }
  }

  /** In every reachable state the state of a process tells the one queue it is on, and on no other queue is
      it; no queue holds a process twice. */
  lemma StateTellsQueue(cs: seq<Call>, p: Pid, s: int)
    requires Path(Boot(), cs) && IsPid(p) && 0 <= s < NSEM
    ensures
      var k := Run(Boot(), cs);
      && Sized(k)
      && (p in k.ready <==> k.procs[p].state == READY)
      && (p in Pids(k.sleepq) <==> k.procs[p].state == SLEEP || k.procs[p].state == RECTIM)
      && (p in k.sems[s].queue <==> k.procs[p].state == WAIT && k.procs[p].sem == s)
      && (k.procs[p].state == CURR <==> p == k.currpid)
      && NoDup(k.ready) && NoDup(Pids(k.sleepq)) && NoDup(k.sems[s].queue)
  {
    hide Path, Run, ByPriority, NullOK;
    BootInv();
    RunKeeps(Boot(), cs);
    var k := Run(Boot(), cs);
    InvSized(k);
    BaseQueues(k, NOHOLE);
    HomeOf(k, p);
    assert WaitsIff(k, p, s);
  }

  /** In every reachable state a semaphore in use has as many processes queued as its count is below zero. */
  lemma CountTellsWaiters(cs: seq<Call>, s: int)
    requires Path(Boot(), cs) && 0 <= s < NSEM
    ensures
      var k := Run(Boot(), cs);
      && Sized(k)
      && (k.sems[s].used ==> |k.sems[s].queue| == if k.sems[s].count < 0 then -k.sems[s].count else 0)
      && (!k.sems[s].used ==> k.sems[s].queue == [])
  {
    hide Path, Run, Base, Running;
    BootInv();
    RunKeeps(Boot(), cs);
    var k := Run(Boot(), cs);
    InvSized(k);
    assert SemOK(k.sems[s]);
  }

  // ---------- Who is woken ----------

  predicate Active(st: PrState) {
    st == READY || st == CURR
  }

  /** The processes of `woken` are ready or running; all others are as they were, up to being ready or running. */
  ghost predicate Woke(k: Kernel, k': Kernel, woken: seq<Pid>, p: Pid)
    requires Sized(k) && Sized(k')
  {
    IsPid(p) ==>
      && k'.procs[p].prio == k.procs[p].prio
      && if p in woken then Active(k'.procs[p].state)
         else k'.procs[p].state == k.procs[p].state || (Active(k.procs[p].state) && Active(k'.procs[p].state))
  }

  ghost predicate Wakes(k: Kernel, k': Kernel, woken: seq<Pid>)
    requires Sized(k) && Sized(k')
  {
    forall p :: Woke(k, k', woken, p)
  }

  lemma WakesThen(k: Kernel, k1: Kernel, k2: Kernel, w1: seq<Pid>, w2: seq<Pid>)
    requires Sized(k) && Sized(k1) && Sized(k2) && Wakes(k, k1, w1) && Wakes(k1, k2, w2)
    ensures Wakes(k, k2, w1 + w2)
  {
    forall p ensures Woke(k, k2, w1 + w2, p) {
      assert Woke(k, k1, w1, p) && Woke(k1, k2, w2, p);
    }
  }

  lemma RestWakes(k: Kernel, k1: Kernel, k': Kernel, p: Pid)
    requires Sized(k) && Sized(k1) && Sized(k') && k1.procs == k.procs && IsPid(p)
              && SameRest(SetState(k1, p, READY), k')
    ensures Wakes(k, k', [p])
  {
    forall q ensures Woke(k, k', [p], q) { assert SameProc(SetState(k1, p, READY), k', q); }
  }

  lemma SignalOneWakes(k: Kernel, s: int)
    requires Inv(k) && GoodSem(k, s)
    ensures
      var sem := k.sems[s];
      var k' := SignalOne(k, s);
      if sem.queue == [] then k'.sems[s] == sem.(count := sem.count + 1) && Wakes(k, k', [])
      else k'.sems[s] == sem.(count := sem.count + 1, queue := sem.queue[1..]) && Wakes(k, k', [sem.queue[0]])
  {
    hide InvBut, Inv, Ready;
    InvIsBut(k, s);
    InvSized(k);
    var sem := k.sems[s];
    if sem.queue != [] {
      var sem' := sem.(count := sem.count + 1, queue := sem.queue[1..]);
      DequeueReady(k, s, sem');
      RestWakes(k, SetSem(k, s, sem'), SignalOne(k, s), sem.queue[0]);
    } else {
      assert SignalOne(k, s) == SetSem(k, s, sem.(count := sem.count + 1));
      forall p ensures Woke(k, SignalOne(k, s), [], p) { }
    }
  }

  lemma {:induction false} SignalLoopWakes(k: Kernel, s: int, n: nat)
    requires Inv(k) && GoodSem(k, s)
    ensures
      var q := k.sems[s].queue;
      var k' := SignalLoop(k, s, n);
      && k'.sems[s] == k.sems[s].(count := k.sems[s].count + n, queue := q[Min(n, |q|)..])
      && Wakes(k, k', q[..Min(n, |q|)])
    decreases n
  {
    hide Inv, SignalOne, Wakes;
    InvSized(k);
    var q := k.sems[s].queue;
    if n > 0 {
      SignalOneKeeps(k, s);
      SignalOneWakes(k, s);
      var k1 := SignalOne(k, s);
      SignalLoopWakes(k1, s, n - 1);
      var q1 := k1.sems[s].queue;
      if q == [] {
        WakesThen(k, k1, SignalLoop(k, s, n), [], []);
        assert [] + [] == q[..Min(n, |q|)];
      } else {
        WakesThen(k, k1, SignalLoop(k, s, n), [q[0]], q1[..Min(n - 1, |q1|)]);
        assert [q[0]] + q1[..Min(n - 1, |q1|)] == q[..Min(n, |q|)];
        assert q1[Min(n - 1, |q1|)..] == q[Min(n, |q|)..];
      }
    } else {
      WakesNone(k, k);
      assert q[0..] == q && q[..0] == [];
    }
  }

  lemma WakesNone(k: Kernel, k': Kernel)
    requires Sized(k) && Sized(k') && (k'.procs == k.procs || SameRest(k, k'))
    ensures Wakes(k, k', [])
  {
    forall p ensures Woke(k, k', [], p) { if k'.procs != k.procs { assert SameProc(k, k', p); } }
  }

  lemma StopRest(k: Kernel)
    requires Inv(k)
    ensures DeferStop(k).sems == k.sems && DeferStop(k).sleepq == k.sleepq && Wakes(k, DeferStop(k), [])
  {
    hide Placed, ByPriority, NullOK, Wakes;
    BaseSized(k);
    if k.ndefers == 1 && k.attempt {
      var k1 := k.(ndefers := 0);
      BaseFrame(k, k1);
      ReschedRest(k1);
      WakesNone(k1, Resched(k1));
      WakesNone(k, k1);
      WakesThen(k, k1, Resched(k1), [], []);
      var none: seq<Pid> := [];
      assert none + none == none;
    } else {
      WakesNone(k, DeferStop(k));
    }
  }

  /** signaln adds exactly `n` to the count and wakes exactly the first min(n, waiters) processes of the queue;
      the others keep their places and nothing else changes but who of the active processes runs. */
  lemma SignalNWakesFirst(k: Kernel, s: int, n: int)
    requires Inv(k) && GoodSem(k, s) && n >= 0
    ensures
      var q := k.sems[s].queue;
      var k' := SignalN(k, s, n);
      && k'.sems[s] == k.sems[s].(count := k.sems[s].count + n, queue := q[Min(n, |q|)..])
      && Wakes(k, k', q[..Min(n, |q|)])
  {
    hide Inv, SignalLoop, Wakes, DeferStop;
    InvSized(k);
    DeferInv(k);
    DeferStarted(k);
    WakesNone(k, DeferStart(k));
    SignalLoopKeeps(DeferStart(k), s, n);
    SignalLoopWakes(DeferStart(k), s, n);
    var k1 := SignalLoop(DeferStart(k), s, n);
    StopRest(k1);
    var w := k.sems[s].queue[..Min(n, |k.sems[s].queue|)];
    assert [] + w == w && w + [] == w;
    WakesThen(k, DeferStart(k), k1, [], w);
    WakesThen(k, k1, DeferStop(k1), w, []);
  }

  /** semdelete and semreset wake every waiting process of the semaphore and leave its queue empty. */
  lemma {:induction false} ReadyAllWakes(k: Kernel, s: int, countUp: bool)
    requires InvBut(k, s) && 0 <= s < NSEM
    ensures Wakes(k, ReadyAll(k, s, countUp), k.sems[s].queue)
    decreases |k.sems[s].queue|
  {
    hide InvBut, Ready, Wakes;
    ButSized(k, s);
    var sem := k.sems[s];
    if sem.queue != [] {
      var sem' := sem.(queue := sem.queue[1..], count := if countUp then sem.count + 1 else sem.count);
      DequeueReady(k, s, sem');
      var k1 := Ready(SetSem(k, s, sem'), sem.queue[0]);
      RestWakes(k, SetSem(k, s, sem'), k1, sem.queue[0]);
      ReadyAllWakes(k1, s, countUp);
      WakesThen(k, k1, ReadyAll(k, s, countUp), [sem.queue[0]], sem.queue[1..]);
      assert [sem.queue[0]] + sem.queue[1..] == sem.queue;
    } else {
      WakesNone(k, k);
    }
  }

  lemma SemResetWakesAll(k: Kernel, s: int, count: int)
    requires Inv(k) && GoodSem(k, s) && count >= 0
    ensures SemReset(k, s, count).sems[s] == Sem(true, count, [])
    ensures Wakes(k, SemReset(k, s, count), k.sems[s].queue)
  {
    hide Inv, InvBut, ReadyAll, DeferStop, DeferStart, Wakes;
    InvSized(k);
    SemResetKeeps(k, s, count);
    InvIsBut(k, s);
    DeferStartKeeps(k, s);
    DeferStarted(k);
    StartSame(k);
    WakesNone(k, DeferStart(k));
    ReadyAllKeeps(DeferStart(k), s, false);
    ReadyAllWakes(DeferStart(k), s, false);
    var k1 := ReadyAll(DeferStart(k), s, false);
    var k2 := SetSem(k1, s, k1.sems[s].(count := count));
    CountKeeps(k1, s, k1.sems[s].(count := count));
    ButIsInv(k2, s);
    WakesNone(k1, k2);
    StopRest(k2);
    var w := k.sems[s].queue;
    assert [] + w == w && w + [] == w;
    WakesThen(k, DeferStart(k), k1, [], w);
    WakesThen(k, k1, k2, w, []);
    WakesThen(k, k2, DeferStop(k2), w, []);
  }

  lemma StartSame(k: Kernel)
    ensures DeferStart(k).procs == k.procs && DeferStart(k).sleepq == k.sleepq && DeferStart(k).ready == k.ready
    ensures DeferStart(k).currpid == k.currpid && DeferStart(k).ndefers == k.ndefers + 1
  {
  }

  lemma SemDeleteWakesAll(k: Kernel, s: int)
    requires Inv(k) && GoodSem(k, s)
    ensures !SemDelete(k, s).sems[s].used && SemDelete(k, s).sems[s].queue == []
    ensures Wakes(k, SemDelete(k, s), k.sems[s].queue)
  {
    hide Inv, InvBut, ReadyAll, DeferStop, DeferStart, Wakes;
    InvSized(k);
    SemDeleteKeeps(k, s);
    InvIsBut(k, s);
    var k0 := SetSem(k, s, k.sems[s].(used := false));
    CountKeeps(k, s, k.sems[s].(used := false));
    DeferStartKeeps(k0, s);
    DeferStarted(k0);
    StartSame(k0);
    WakesNone(k, DeferStart(k0));
    ReadyAllKeeps(DeferStart(k0), s, true);
    ReadyAllWakes(DeferStart(k0), s, true);
    var k1 := ReadyAll(DeferStart(k0), s, true);
    var k2 := SetSem(k1, s, k1.sems[s].(count := k1.sems[s].count + 1));
    CountKeeps(k1, s, k1.sems[s].(count := k1.sems[s].count + 1));
    ButIsInv(k2, s);
    WakesNone(k1, k2);
    StopRest(k2);
    var w := k.sems[s].queue;
    assert [] + w == w && w + [] == w;
    WakesThen(k, DeferStart(k0), k1, [], w);
    WakesThen(k, k1, k2, w, []);
    WakesThen(k, k2, DeferStop(k2), w, []);
  }
}
