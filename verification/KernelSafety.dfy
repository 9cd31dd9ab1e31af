/** What every kernel call keeps: the state of each process says which queue it is on, semaphore counts agree
    with their queues, the ready list is in priority order, and no ready process is more urgent than the
    current one. */
module KernelSafety {
  import opened KernelState
  import opened Sequences

  function Pids(q: seq<Sleeper>): seq<Pid> {
    seq(|q|, i requires 0 <= i < |q| => q[i].pid)
  }

  ghost predicate AllPids(q: seq<Pid>) {
    forall i :: 0 <= i < |q| ==> IsPid(q[i])
  }

  predicate Asleep(st: PrState) {
    st == SLEEP || st == RECTIM
  }

  ghost predicate WaitsIff(k: Kernel, p: Pid, s: int)
    requires Sized(k) && IsPid(p)
  {
    0 <= s < NSEM ==> (p in k.sems[s].queue <==> k.procs[p].state == WAIT && k.procs[p].sem == s)
  }

  ghost predicate WaitsNot(k: Kernel, p: Pid, s: int)
    requires Sized(k)
  {
    0 <= s < NSEM ==> p !in k.sems[s].queue
  }

  /** Process `p` is on exactly the queue its state says. */
  ghost predicate Home(k: Kernel, p: Pid)
    requires Sized(k) && IsPid(p)
  {
    var pr := k.procs[p];
    && (p in k.ready <==> pr.state == READY)
    && (p in Pids(k.sleepq) <==> Asleep(pr.state))
    && (forall s :: WaitsIff(k, p, s))
    && (pr.state == WAIT ==> 0 <= pr.sem < NSEM)
    && (pr.state == CURR ==> p == k.currpid)
  }

  /** Process `p` has just been taken off a queue: it is on none. */
  ghost predicate Nowhere(k: Kernel, p: Pid)
    requires Sized(k)
  {
    p !in k.ready && p !in Pids(k.sleepq) && forall s :: WaitsNot(k, p, s)
  }

  ghost predicate QueueOK(q: seq<Pid>) {
    NoDup(q) && AllPids(q)
  }

  /** Every process is at home, except that `hole`, if it is a process, is nowhere. */
  ghost predicate Placed(k: Kernel, hole: Pid) {
    && Sized(k)
    && QueueOK(k.ready) && QueueOK(Pids(k.sleepq))
    && (forall s :: 0 <= s < NSEM ==> QueueOK(k.sems[s].queue))
    && (forall p :: IsPid(p) && p != hole ==> Home(k, p))
    && (IsPid(hole) ==> Nowhere(k, hole))
  }

  const NOHOLE := -1

  ghost predicate NotBefore(k: Kernel, p: Pid, q: Pid)
    requires Sized(k)
  {
    Prio(k, p) >= Prio(k, q)
  }

  /** The ready list is in descending order of priority. */
  ghost predicate ByPriority(k: Kernel)
    requires Sized(k)
  {
    forall i, j :: 0 <= i < j < |k.ready| ==> NotBefore(k, k.ready[i], k.ready[j])
  }

  ghost predicate PrioOK(k: Kernel, p: Pid)
    requires Sized(k) && IsPid(p)
  {
    if p == NULLPROC then k.procs[p].prio == 0 else k.procs[p].state != FREE ==> k.procs[p].prio >= 1
  }

  /** The null process can always run, and every other process has a higher priority. */
  ghost predicate NullOK(k: Kernel)
    requires Sized(k)
  {
    && (k.procs[NULLPROC].state == READY || k.procs[NULLPROC].state == CURR)
    && (forall p :: IsPid(p) ==> PrioOK(k, p))
  }

  ghost predicate DelaysOK(k: Kernel) {
    forall i :: 0 <= i < |k.sleepq| ==> k.sleepq[i].key >= 0
  }

  /** What holds even in the middle of a call, with `hole` off its queue. */
  ghost predicate Base(k: Kernel, hole: Pid) {
    && Placed(k, hole) && ByPriority(k) && NullOK(k) && k.ndefers >= 0 && k.preempt >= 1
  }

  /** No ready process is more urgent than the current one. */
  ghost predicate Urgent(k: Kernel)
    requires Sized(k)
  {
    forall i :: 0 <= i < |k.ready| ==> NotBefore(k, k.currpid, k.ready[i])
  }

  /** Unless a needed rescheduling has been put off, the current process is one of the most urgent. */
  ghost predicate Running(k: Kernel)
    requires Sized(k)
  {
    && k.procs[k.currpid].state == CURR
    && (k.ndefers == 0 || !k.attempt ==> Urgent(k))
  }

  function Positive(n: int): int {
    if n > 0 then n else 0
  }

  ghost predicate SemOK(sem: Sem) {
    if sem.used then |sem.queue| == Positive(-sem.count) else sem.queue == []
  }

  ghost predicate SemsOK(k: Kernel)
    requires Sized(k)
  {
    forall s :: 0 <= s < NSEM ==> SemOK(k.sems[s])
  }

  /** The invariant between kernel calls. */
  ghost predicate Inv(k: Kernel) {
    Base(k, NOHOLE) && Running(k) && SemsOK(k) && DelaysOK(k)
  }

  // ---------- Moving a process onto the ready list ----------

  lemma InsertAtIn<T>(q: seq<T>, i: int, x: T, y: T)
    requires 0 <= i <= |q|
    ensures y in InsertAt(q, i, x) <==> y in q || y == x
  {
    assert q == q[..i] + q[i..];
  }

  lemma InsertAtOK(q: seq<Pid>, i: int, p: Pid)
    requires QueueOK(q) && 0 <= i <= |q| && p !in q && IsPid(p)
    ensures QueueOK(InsertAt(q, i, p))
  {
    var r := InsertAt(q, i, p);
    forall a, b | 0 <= a < b < |r| ensures Differ(r, a, b) {
      var a', b' := if a < i then a else a - 1, if b < i then b else b - 1;
      if a != i && b != i { assert Differ(q, a', b'); }
    }
  }

  /** Other fields of the process table and other queues are not looked at by a home. */
  lemma HomeFrame(k: Kernel, k': Kernel, p: Pid)
    requires Sized(k) && Sized(k') && IsPid(p) && Home(k, p)
    requires k'.procs[p] == k.procs[p] && (k.procs[p].state == CURR ==> k'.currpid == k.currpid)
    requires p in k'.ready <==> p in k.ready
    requires p in Pids(k'.sleepq) <==> p in Pids(k.sleepq)
    requires forall s :: 0 <= s < NSEM ==> (p in k'.sems[s].queue <==> p in k.sems[s].queue)
    ensures Home(k', p)
  {
    var pr := k.procs[p];
    forall s ensures WaitsIff(k', p, s) {
      assert WaitsIff(k, p, s);
    }
  }

  lemma PrioFrame(k: Kernel, k': Kernel)
    requires Sized(k) && Sized(k') && ByPriority(k) && NullOK(k) && k'.ready == k.ready
    requires forall p :: IsPid(p) ==>
              k'.procs[p].prio == k.procs[p].prio && (k.procs[p].state == FREE ==> k'.procs[p].state == FREE)
    requires k'.procs[NULLPROC].state == READY || k'.procs[NULLPROC].state == CURR
    ensures ByPriority(k') && NullOK(k')
  {
    forall a, b | 0 <= a < b < |k'.ready| ensures NotBefore(k', k'.ready[a], k'.ready[b]) {
      assert NotBefore(k, k.ready[a], k.ready[b]);
    }
    forall q | IsPid(q) ensures PrioOK(k', q) { assert PrioOK(k, q); }
  }

  lemma InsertByPriority(k: Kernel, p: Pid)
    requires Sized(k) && ByPriority(k)
    ensures ByPriority(Insert(k, p))
  {
    var i := InsertPos(k, k.ready, Prio(k, p));
    var r := Insert(k, p);
    forall a | 0 <= a < |r.ready|
      ensures r.ready[a] == if a < i then k.ready[a] else if a == i then p else k.ready[a - 1]
    {
    }
    forall a, b | 0 <= a < b < |r.ready| ensures NotBefore(r, r.ready[a], r.ready[b]) {
      if a < i && b > i { assert NotBefore(k, k.ready[a], k.ready[b - 1]); }
      if b < i { assert NotBefore(k, k.ready[a], k.ready[b]); }
      if a > i { assert NotBefore(k, k.ready[a - 1], k.ready[b - 1]); }
      if a == i < b - 1 { assert NotBefore(k, k.ready[i], k.ready[b - 1]); }
    }
  }

  /** A process that is on no queue joins the ready list. */
  lemma JoinReady(k: Kernel, p: Pid)
    requires Base(k, p) && IsPid(p) && k.procs[p].state != FREE
    ensures Base(Insert(SetState(k, p, READY), p), NOHOLE)
  {
    hide ByPriority, NullOK, InsertPos;
    var k1 := SetState(k, p, READY);
    var i := InsertPos(k1, k1.ready, Prio(k1, p));
    var k2 := Insert(k1, p);
    InsertAtOK(k.ready, i, p);
    JoinPrio(k, p);
    InsertByPriority(k1, p);
    forall q | IsPid(q) ensures Home(k2, q) {
      InsertAtIn(k.ready, i, p, q);
      if q != p { HomeFrame(k, k2, q); } else {
        forall s ensures WaitsIff(k2, p, s) { assert WaitsNot(k, p, s); }
      }
    }
  }

  lemma JoinPrio(k: Kernel, p: Pid)
    requires Base(k, p) && IsPid(p) && k.procs[p].state != FREE
    ensures
      var k1 := SetState(k, p, READY);
      ByPriority(k1) && NullOK(k1) && NullOK(Insert(k1, p))
  {
    var k1 := SetState(k, p, READY);
    PrioFrame(k, k1);
    forall q | IsPid(q) ensures PrioOK(Insert(k1, p), q) { assert PrioOK(k1, q); }
  }

  /** A process that its state puts on no queue can be treated as off its queue. */
  lemma AsHole(k: Kernel, p: Pid)
    requires Base(k, NOHOLE) && IsPid(p)
    requires k.procs[p].state != READY && k.procs[p].state != WAIT && !Asleep(k.procs[p].state)
    ensures Base(k, p)
  {
    assert Home(k, p);
    forall s ensures WaitsNot(k, p, s) { assert WaitsIff(k, p, s); }
  }

  /** Giving a process that is nowhere a state that puts it on no queue. */
  lemma FillHole(k: Kernel, p: Pid, st: PrState)
    requires Base(k, p) && IsPid(p) && p != NULLPROC
    requires st == SUSP || st == RECV || st == FREE || (st == CURR && p == k.currpid)
    requires st != FREE ==> k.procs[p].state != FREE || k.procs[p].prio >= 1
    ensures Base(SetState(k, p, st), NOHOLE)
  {
    var k1 := SetState(k, p, st);
    forall q | IsPid(q) ensures Home(k1, q) {
      if q != p { HomeFrame(k, k1, q); } else {
        forall s ensures WaitsIff(k1, p, s) { assert WaitsNot(k, p, s); }
      }
    }
    forall q ensures Prio(k1, q) == Prio(k, q) { }
    forall q | IsPid(q) ensures PrioOK(k1, q) { assert PrioOK(k, q); }
    forall a, b | 0 <= a < b < |k1.ready| ensures NotBefore(k1, k1.ready[a], k1.ready[b]) {
      assert NotBefore(k, k.ready[a], k.ready[b]);
    }
  }

  lemma TailOK(q: seq<Pid>)
    requires QueueOK(q) && q != []
    ensures QueueOK(q[1..]) && q[0] !in q[1..] && IsPid(q[0])
    ensures forall x :: x in q[1..] <==> x in q && x != q[0]
  {
    NoDupTail(q);
  }

  /** Dispatching the first ready process when the current one has given up the processor. */
  lemma DispatchKeeps(k: Kernel)
    requires Base(k, NOHOLE) && k.procs[k.currpid].state != CURR && k.ready != []
    ensures Base(Dispatch(k), NOHOLE)
    ensures Dispatch(k).procs[Dispatch(k).currpid].state == CURR && Urgent(Dispatch(k))
  {
    TailOK(k.ready);
    var p := k.ready[0];
    var k1 := Dispatch(k);
    assert Home(k, p);
    forall q | IsPid(q) ensures Home(k1, q) {
      assert Home(k, q);
      if q != p {
        assert k.procs[q].state != CURR;
        HomeFrame(k, k1, q);
      } else {
        forall s ensures WaitsIff(k1, p, s) { assert WaitsIff(k, p, s); }
      }
    }
    forall q ensures Prio(k1, q) == Prio(k, q) { }
    forall q | IsPid(q) ensures PrioOK(k1, q) { assert PrioOK(k, q); }
    forall a, b | 0 <= a < b < |k1.ready| ensures NotBefore(k1, k1.ready[a], k1.ready[b]) {
      assert NotBefore(k, k.ready[a + 1], k.ready[b + 1]);
    }
    forall i | 0 <= i < |k1.ready| ensures NotBefore(k1, p, k1.ready[i]) {
      assert NotBefore(k, k.ready[0], k.ready[i + 1]);
    }
  }

  /** The null process is ready whenever it is not current, so there is always something to dispatch. */
  lemma SomethingReady(k: Kernel)
    requires Base(k, NOHOLE) && k.procs[k.currpid].state != CURR
    ensures k.ready != []
  {
    assert Home(k, NULLPROC);
  }

  /** resched, with the current process either still eligible or just put elsewhere. */
  lemma ReschedKeeps(k: Kernel)
    requires Base(k, NOHOLE) && (k.ndefers > 0 ==> k.procs[k.currpid].state == CURR)
    ensures Base(Resched(k), NOHOLE) && Running(Resched(k))
  {
    hide Placed, ByPriority, NullOK, Urgent;
    BaseSized(k);
    if k.ndefers > 0 {
      Attempted(k);
    } else if k.procs[k.currpid].state == CURR {
      if k.ready == [] || Prio(k, k.currpid) > Prio(k, k.ready[0]) {
        StaysUrgent(k);
      } else {
        AsHole(k, k.currpid);
        JoinReady(k, k.currpid);
        var k2 := Insert(SetState(k, k.currpid, READY), k.currpid);
        assert k2.ready != [] && k2.procs[k2.currpid].state != CURR;
        DispatchKeeps(k2);
      }
    } else {
      SomethingReady(k);
      DispatchKeeps(k);
    }
    NoDefersKept(k);
  }

  lemma BaseSized(k: Kernel)
    requires Base(k, NOHOLE)
    ensures Sized(k) && IsPid(k.currpid)
  {
  }

  lemma HoleSized(k: Kernel, p: Pid)
    requires Base(k, p)
    ensures Sized(k)
  {
  }

  lemma NoDefersKept(k: Kernel)
    requires Sized(k)
    ensures k.ndefers > 0 ==> Resched(k) == k.(attempt := true)
    ensures Resched(k).ndefers == k.ndefers
  {
  }

  lemma Attempted(k: Kernel)
    requires Base(k, NOHOLE)
    ensures Base(k.(attempt := true), NOHOLE)
  {
    var k1 := k.(attempt := true);
    forall q | IsPid(q) ensures Home(k1, q) && PrioOK(k1, q) { assert Home(k, q) && PrioOK(k, q); HomeFrame(k, k1, q); }
    forall a, b | 0 <= a < b < |k1.ready| ensures NotBefore(k1, k1.ready[a], k1.ready[b]) {
      assert NotBefore(k, k.ready[a], k.ready[b]);
    }
  }

  lemma StaysUrgent(k: Kernel)
    requires Base(k, NOHOLE) && (k.ready == [] || Prio(k, k.currpid) > Prio(k, k.ready[0]))
    ensures Urgent(k)
  {
    forall i | 0 <= i < |k.ready| ensures NotBefore(k, k.currpid, k.ready[i]) {
      if i > 0 { assert NotBefore(k, k.ready[0], k.ready[i]); }
    }
  }

  /** ready: a process that was just taken off a queue becomes ready, and the most urgent process runs. */
  lemma ReadyKeeps(k: Kernel, p: Pid)
    requires Base(k, p) && IsPid(p) && k.procs[p].state != FREE && p != k.currpid && k.procs[k.currpid].state == CURR
    ensures Base(Ready(k, p), NOHOLE) && Running(Ready(k, p))
  {
    hide Placed, ByPriority, NullOK, Running;
    JoinReady(k, p);
    HoleSized(k, p);
    ReschedKeeps(Insert(SetState(k, p, READY), p));
  }

  // ---------- What rescheduling leaves alone ----------

  /** Semaphores, the sleep queue, priorities and the number of deferrals are as before. */
  ghost predicate SameRest(k: Kernel, k': Kernel)
    requires Sized(k) && Sized(k')
  {
    && k'.sems == k.sems && k'.sleepq == k.sleepq && k'.ndefers == k.ndefers && k'.nextsem == k.nextsem
    && forall p :: SameProc(k, k', p)
  }

  /** Rescheduling exchanges at most the states current and ready. */
  ghost predicate SameProc(k: Kernel, k': Kernel, p: Pid)
    requires Sized(k) && Sized(k')
  {
    IsPid(p) ==>
      && k'.procs[p].prio == k.procs[p].prio && k'.procs[p].sem == k.procs[p].sem
      && (k'.procs[p].state == k.procs[p].state
         || (k.procs[p].state in {CURR, READY} && k'.procs[p].state in {CURR, READY}))
  }

  lemma DispatchRest(k: Kernel)
    requires Base(k, NOHOLE)
    ensures SameRest(k, Dispatch(k))
  {
    if k.ready != [] { assert Home(k, k.ready[0]); }
  }

  lemma ReschedRest(k: Kernel)
    requires Base(k, NOHOLE) && (k.ndefers > 0 ==> k.procs[k.currpid].state == CURR)
    ensures SameRest(k, Resched(k))
  {
    hide Placed, ByPriority, NullOK;
    BaseSized(k);
    if k.ndefers == 0 && k.procs[k.currpid].state == CURR
        && !(k.ready == [] || Prio(k, k.currpid) > Prio(k, k.ready[0])) {
      AsHole(k, k.currpid);
      JoinReady(k, k.currpid);
      var k2 := Insert(SetState(k, k.currpid, READY), k.currpid);
      DispatchRest(k2);
      forall p ensures SameProc(k, Dispatch(k2), p) { assert SameProc(k2, Dispatch(k2), p); }
    } else if k.ndefers == 0 {
      DispatchRest(k);
    }
  }

  lemma ReadyRest(k: Kernel, p: Pid)
    requires Base(k, p) && IsPid(p) && k.procs[p].state != FREE && p != k.currpid && k.procs[k.currpid].state == CURR
    ensures SameRest(SetState(k, p, READY), Ready(k, p))
  {
    hide Placed, ByPriority, NullOK;
    HoleSized(k, p);
    JoinReady(k, p);
    var k2 := Insert(SetState(k, p, READY), p);
    ReschedRest(k2);
    forall q ensures SameProc(SetState(k, p, READY), Ready(k, p), q) { assert SameProc(k2, Ready(k, p), q); }
  }

  // ---------- One process changes its queue ----------

  ghost predicate SameQueueAt(k: Kernel, k': Kernel, q: Pid, s: int)
    requires Sized(k) && Sized(k')
  {
    0 <= s < NSEM ==> (q in k'.sems[s].queue <==> q in k.sems[s].queue)
  }

  /** Nothing changes for process `q`. */
  ghost predicate Untouched(k: Kernel, k': Kernel, q: Pid)
    requires Sized(k) && Sized(k')
  {
    IsPid(q) ==>
      && k'.procs[q] == k.procs[q] && (q in k'.ready <==> q in k.ready)
      && (q in Pids(k'.sleepq) <==> q in Pids(k.sleepq)) && forall s :: SameQueueAt(k, k', q, s)
  }

  /** When only process `p` changes its queue, only its home has to be looked at. */
  lemma Rebase(k: Kernel, h: Pid, k': Kernel, h': Pid, p: Pid)
    requires Base(k, h) && IsPid(p) && (h == NOHOLE || h == p) && (h' == NOHOLE || h' == p)
    requires Sized(k') && k'.currpid == k.currpid && k'.ndefers >= 0 && k'.preempt >= 1
    requires QueueOK(k'.ready) && QueueOK(Pids(k'.sleepq)) && forall s :: 0 <= s < NSEM ==> QueueOK(k'.sems[s].queue)
    requires forall q :: q != p ==> Untouched(k, k', q)
    requires if h' == p then Nowhere(k', p) else Home(k', p)
    requires ByPriority(k') && NullOK(k')
    ensures Base(k', h')
  {
    hide ByPriority, NullOK;
    forall q | IsPid(q) && q != h' ensures Home(k', q) {
      if q != p {
        assert Untouched(k, k', q);
        forall s | 0 <= s < NSEM ensures q in k'.sems[s].queue <==> q in k.sems[s].queue {
          assert SameQueueAt(k, k', q, s);
        }
        HomeFrame(k, k', q);
      }
    }
  }

  lemma BaseQueues(k: Kernel, h: Pid)
    requires Base(k, h)
    ensures Sized(k) && QueueOK(k.ready) && QueueOK(Pids(k.sleepq)) && ByPriority(k) && NullOK(k)
    ensures forall s :: 0 <= s < NSEM ==> QueueOK(k.sems[s].queue)
    ensures k.ndefers >= 0 && k.preempt >= 1
  {
  }

  lemma HomeOf(k: Kernel, p: Pid)
    requires Base(k, NOHOLE) && IsPid(p)
    ensures Home(k, p)
  {
  }

  /** The semaphore entry changes, its queue does not. */
  lemma CountChanges(k: Kernel, h: Pid, s: int, sem: Sem)
    requires Base(k, h) && 0 <= s < NSEM && sem.queue == k.sems[s].queue && (h == NOHOLE || IsPid(h))
    ensures Base(SetSem(k, s, sem), h)
  {
    hide ByPriority, NullOK;
    BaseQueues(k, h);
    var k' := SetSem(k, s, sem);
    var p := if h == NOHOLE then NULLPROC else h;
    PrioFrame(k, k');
    forall q ensures Untouched(k, k', q) { forall t ensures SameQueueAt(k, k', q, t) { } }
    if h == NOHOLE {
      HomeOf(k, p);
      HomeFrame(k, k', p);
    } else {
      forall t ensures WaitsNot(k', p, t) { assert WaitsNot(k, p, t); }
    }
    Rebase(k, h, k', h, p);
  }

  // ---------- Semaphore calls ----------

  ghost predicate OthersOK(k: Kernel, s: int)
    requires Sized(k)
  {
    forall t :: 0 <= t < NSEM && t != s ==> SemOK(k.sems[t])
  }

  /** The invariant, except for the count of semaphore `s`. */
  ghost predicate InvBut(k: Kernel, s: int) {
    Base(k, NOHOLE) && Running(k) && DelaysOK(k) && OthersOK(k, s)
  }

  lemma RestInv(k: Kernel, k': Kernel, s: int)
    requires Sized(k) && Sized(k') && SameRest(k, k') && OthersOK(k, s) && DelaysOK(k)
    ensures OthersOK(k', s) && DelaysOK(k') && (0 <= s < NSEM ==> k'.sems[s] == k.sems[s])
  {
  }

  /** Take the first waiting process of a semaphore and make it ready. */
  lemma DequeueReady(k: Kernel, s: int, sem: Sem)
    requires InvBut(k, s) && 0 <= s < NSEM && k.sems[s].queue != [] && sem.queue == k.sems[s].queue[1..]
    ensures IsPid(k.sems[s].queue[0])
    ensures
      var k' := Ready(SetSem(k, s, sem), k.sems[s].queue[0]);
      && InvBut(k', s) && k'.sems[s] == sem && k'.ndefers == k.ndefers
      && SameRest(SetState(SetSem(k, s, sem), k.sems[s].queue[0], READY), k')
  {
    hide ByPriority, NullOK, Urgent;
    BaseQueues(k, NOHOLE);
    var q := k.sems[s].queue;
    var p := q[0];
    var k1 := SetSem(k, s, sem);
    TailOK(q);
    HomeOf(k, p);
    assert WaitsIff(k, p, s);
    PrioFrame(k, k1);
    forall r | r != p ensures Untouched(k, k1, r) { forall t ensures SameQueueAt(k, k1, r, t) { } }
    forall t ensures WaitsNot(k1, p, t) { assert WaitsIff(k, p, t); }
    Rebase(k, NOHOLE, k1, p, p);
    ReadyKeeps(k1, p);
    ReadyRest(k1, p);
    RestInv(SetState(k1, p, READY), Ready(k1, p), s);
  }

  lemma InvIsBut(k: Kernel, s: int)
    requires Inv(k)
    ensures InvBut(k, s) && (0 <= s < NSEM ==> SemOK(k.sems[s]))
  {
  }

  lemma ButIsInv(k: Kernel, s: int)
    requires InvBut(k, s) && (0 <= s < NSEM ==> SemOK(k.sems[s]))
    ensures Inv(k)
  {
  }

  lemma SignalOneKeeps(k: Kernel, s: int)
    requires Inv(k) && GoodSem(k, s)
    ensures Inv(SignalOne(k, s)) && GoodSem(SignalOne(k, s), s) && SignalOne(k, s).ndefers == k.ndefers
  {
    hide InvBut, Inv;
    InvIsBut(k, s);
    InvSized(k);
    var sem := k.sems[s];
    if sem.count < 0 {
      DequeueReady(k, s, sem.(count := sem.count + 1, queue := sem.queue[1..]));
      ButIsInv(SignalOne(k, s), s);
    } else {
      CountKeeps(k, s, sem.(count := sem.count + 1));
      ButIsInv(SignalOne(k, s), s);
    }
  }

  lemma CountKeeps(k: Kernel, s: int, sem: Sem)
    requires InvBut(k, s) && 0 <= s < NSEM && sem.queue == k.sems[s].queue
    ensures InvBut(SetSem(k, s, sem), s)
  {
    hide Placed, ByPriority, NullOK;
    BaseSized(k);
    CountChanges(k, NOHOLE, s, sem);
    UrgentFrame(k, SetSem(k, s, sem));
  }

  lemma UrgentFrame(k: Kernel, k': Kernel)
    requires Sized(k) && Sized(k') && k'.ready == k.ready && k'.currpid == k.currpid
    requires forall p :: IsPid(p) ==> k'.procs[p].prio == k.procs[p].prio
    ensures Urgent(k) ==> Urgent(k')
  {
    if Urgent(k) {
      forall i | 0 <= i < |k'.ready| ensures NotBefore(k', k'.currpid, k'.ready[i]) {
        assert NotBefore(k, k.currpid, k.ready[i]);
      }
    }
  }

  lemma InvSized(k: Kernel)
    requires Inv(k)
    ensures Sized(k) && k.ndefers >= 0 && k.procs[k.currpid].state == CURR
  {
  }

  lemma ButSized(k: Kernel, s: int)
    requires InvBut(k, s)
    ensures Sized(k) && k.ndefers >= 0 && k.procs[k.currpid].state == CURR
  {
  }

  /** Fields that no home and no priority depends on. */
  lemma BaseFrame(k: Kernel, k': Kernel)
    requires Base(k, NOHOLE) && k'.procs == k.procs && k'.ready == k.ready && k'.sems == k.sems
              && k'.currpid == k.currpid
    requires Pids(k'.sleepq) == Pids(k.sleepq) && k'.ndefers >= 0 && k'.preempt >= 1 && Sized(k')
    ensures Base(k', NOHOLE)
  {
    hide ByPriority, NullOK;
    BaseQueues(k, NOHOLE);
    PrioFrame(k, k');
    HomeOf(k, NULLPROC);
    HomeFrame(k, k', NULLPROC);
    forall q ensures Untouched(k, k', q) { forall t ensures SameQueueAt(k, k', q, t) { } }
    Rebase(k, NOHOLE, k', NOHOLE, NULLPROC);
  }

  lemma DeferStartKeeps(k: Kernel, s: int)
    requires InvBut(k, s)
    ensures InvBut(DeferStart(k), s)
  {
    hide Placed, ByPriority, NullOK;
    BaseSized(k);
    BaseFrame(k, DeferStart(k));
    UrgentFrame(k, DeferStart(k));
  }

  /** When the last deferral ends, a rescheduling that was put off happens: none is lost. */
  lemma DeferStopKeeps(k: Kernel, s: int)
    requires InvBut(k, s)
    ensures InvBut(DeferStop(k), s) && DeferStop(k).sems == k.sems
    ensures DeferStop(k).ndefers == if k.ndefers > 0 then k.ndefers - 1 else 0
  {
    hide Placed, ByPriority, NullOK;
    BaseSized(k);
    if k.ndefers == 1 && k.attempt {
      var k1 := k.(ndefers := 0);
      BaseFrame(k, k1);
      ReschedKeeps(k1);
      ReschedRest(k1);
      NoDefersKept(k1);
      RestInv(k1, Resched(k1), s);
    } else if k.ndefers > 0 {
      var k1 := k.(ndefers := k.ndefers - 1);
      BaseFrame(k, k1);
      UrgentFrame(k, k1);
    }
  }

  lemma {:induction false} SignalLoopKeeps(k: Kernel, s: int, n: nat)
    requires Inv(k) && GoodSem(k, s)
    ensures Inv(SignalLoop(k, s, n)) && SignalLoop(k, s, n).ndefers == k.ndefers
    decreases n
  {
    hide Inv, SignalOne;
    InvSized(k);
    if n > 0 {
      SignalOneKeeps(k, s);
      SignalLoopKeeps(SignalOne(k, s), s, n - 1);
    }
  }

  lemma DeferInv(k: Kernel)
    requires Inv(k)
    ensures Inv(DeferStart(k)) && Inv(DeferStop(k))
    ensures DeferStop(k).ndefers == if k.ndefers > 0 then k.ndefers - 1 else 0
  {
    hide InvBut, Inv;
    InvSized(k);
    InvIsBut(k, NOHOLE);
    DeferStartKeeps(k, NOHOLE);
    DeferStopKeeps(k, NOHOLE);
    ButIsInv(DeferStart(k), NOHOLE);
    ButIsInv(DeferStop(k), NOHOLE);
  }

  lemma SignalNKeeps(k: Kernel, s: int, n: int)
    requires Inv(k)
    ensures Inv(SignalN(k, s, n)) && SignalN(k, s, n).ndefers == k.ndefers
  {
    hide Inv, SignalLoop;
    InvSized(k);
    if GoodSem(k, s) && n >= 0 {
      DeferInv(k);
      SignalLoopKeeps(DeferStart(k), s, n);
      DeferInv(SignalLoop(DeferStart(k), s, n));
    }
  }

  lemma {:induction false} ReadyAllKeeps(k: Kernel, s: int, countUp: bool)
    requires InvBut(k, s) && 0 <= s < NSEM
    ensures
      var k' := ReadyAll(k, s, countUp);
      && InvBut(k', s) && k'.ndefers == k.ndefers
      && k'.sems[s] == Sem(k.sems[s].used, if countUp then k.sems[s].count + |k.sems[s].queue| else k.sems[s].count, [])
    decreases |k.sems[s].queue|
  {
    hide InvBut, Ready;
    ButSized(k, s);
    var sem := k.sems[s];
    if sem.queue != [] {
      var sem' := sem.(queue := sem.queue[1..], count := if countUp then sem.count + 1 else sem.count);
      DequeueReady(k, s, sem');
      ReadyAllKeeps(Ready(SetSem(k, s, sem'), sem.queue[0]), s, countUp);
    }
  }

  lemma SemDeleteKeeps(k: Kernel, s: int)
    requires Inv(k)
    ensures Inv(SemDelete(k, s)) && SemDelete(k, s).ndefers == k.ndefers
    ensures GoodSem(k, s) ==> !SemDelete(k, s).sems[s].used && SemDelete(k, s).sems[s].queue == []
  {
    hide Inv, InvBut, ReadyAll, DeferStop, DeferStart;
    InvSized(k);
    if GoodSem(k, s) {
      InvIsBut(k, s);
      var k0 := SetSem(k, s, k.sems[s].(used := false));
      CountKeeps(k, s, k.sems[s].(used := false));
      DeferStartKeeps(k0, s);
      DeferStarted(k0);
      ReadyAllKeeps(DeferStart(k0), s, true);
      var k1 := ReadyAll(DeferStart(k0), s, true);
      CountKeeps(k1, s, k1.sems[s].(count := k1.sems[s].count + 1));
      DeferStopKeeps(SetSem(k1, s, k1.sems[s].(count := k1.sems[s].count + 1)), s);
      ButIsInv(SemDelete(k, s), s);
    }
  }

  lemma DeferStarted(k: Kernel)
    ensures DeferStart(k).sems == k.sems && DeferStart(k).ndefers == k.ndefers + 1
    ensures Sized(k) ==> Sized(DeferStart(k))
  {
  }

  lemma SemResetKeeps(k: Kernel, s: int, count: int)
    requires Inv(k)
    ensures Inv(SemReset(k, s, count)) && SemReset(k, s, count).ndefers == k.ndefers
    ensures count >= 0 && GoodSem(k, s) ==> SemReset(k, s, count).sems[s] == Sem(true, count, [])
  {
    hide Inv, InvBut, ReadyAll, DeferStop, DeferStart;
    InvSized(k);
    if count >= 0 && GoodSem(k, s) {
      InvIsBut(k, s);
      DeferStartKeeps(k, s);
      DeferStarted(k);
      ReadyAllKeeps(DeferStart(k), s, false);
      var k1 := ReadyAll(DeferStart(k), s, false);
      CountKeeps(k1, s, k1.sems[s].(count := count));
      DeferStopKeeps(SetSem(k1, s, k1.sems[s].(count := count)), s);
      ButIsInv(SemReset(k, s, count), s);
    }
  }

  lemma SemCreateKeeps(k: Kernel, count: int)
    requires Inv(k)
    ensures Inv(SemCreate(k, count)) && SemCreate(k, count).ndefers == k.ndefers
  {
    hide Placed, ByPriority, NullOK, FindSem, Urgent;
    InvSized(k);
    var s := FindSem(k.sems, k.nextsem, NSEM);
    if count >= 0 && s != -1 {
      CountChanges(k, NOHOLE, s, k.sems[s].(used := true, count := count));
      var k1 := SetSem(k, s, k.sems[s].(used := true, count := count));
      BaseFrame(k1, SemCreate(k, count));
      UrgentFrame(k, SemCreate(k, count));
    }
  }

  // ---------- Blocking the current process ----------

  /** wait */
  lemma WaitKeeps(k: Kernel, s: int)
    requires Inv(k) && Allowed(k, CWait(s))
    ensures Inv(Wait(k, s)) && Wait(k, s).ndefers == k.ndefers
  {
    hide ByPriority, NullOK, Urgent, InvBut, Placed;
    InvSized(k);
    if GoodSem(k, s) {
      var sem := k.sems[s];
      if sem.count - 1 >= 0 {
        InvIsBut(k, s);
        CountKeeps(k, s, sem.(count := sem.count - 1));
        ButIsInv(Wait(k, s), s);
      } else {
        var c := k.currpid;
        var k1 := SetSem(k, s, sem.(count := sem.count - 1, queue := sem.queue + [c]));
        var k2 := k1.(procs := k1.procs[c := k1.procs[c].(state := WAIT, sem := s)]);
        JoinSem(k, k2, s);
        ReschedKeeps(k2);
        ReschedRest(k2);
        NoDefersKept(k2);
        RestInv(k2, Resched(k2), s);
        InvFromRest(k2, s);
      }
    }
  }

  lemma InvFromRest(k: Kernel, s: int)
    requires Base(k, NOHOLE) && k.ndefers == 0 && OthersOK(k, s) && DelaysOK(k) && (0 <= s < NSEM ==> SemOK(k.sems[s]))
    ensures Inv(Resched(k))
  {
    hide Placed, ByPriority, NullOK, Urgent;
    BaseSized(k);
    ReschedKeeps(k);
    ReschedRest(k);
    RestInv(k, Resched(k), s);
  }

  lemma JoinSem(k: Kernel, k2: Kernel, s: int)
    requires Base(k, NOHOLE) && 0 <= s < NSEM && k.procs[k.currpid].state == CURR && k.currpid != NULLPROC
    requires Sized(k2) && k2.sems == k.sems[s := k2.sems[s]] && k2.sems[s].queue == k.sems[s].queue + [k.currpid]
    requires k2 == k.(sems := k2.sems, procs := k.procs[k.currpid := k.procs[k.currpid].(state := WAIT, sem := s)])
    ensures Base(k2, NOHOLE)
  {
    hide ByPriority, NullOK;
    var c := k.currpid;
    BaseQueues(k, NOHOLE);
    HomeOf(k, c);
    assert WaitsIff(k, c, s);
    var q := k.sems[s].queue;
    assert InsertAt(q, |q|, c) == q + [c];
    InsertAtOK(q, |q|, c);
    NullStays(k, c);
    PrioFrame(k, k2);
    forall r | r != c ensures Untouched(k, k2, r) { forall t ensures SameQueueAt(k, k2, r, t) { } }
    forall t ensures WaitsIff(k2, c, t) { assert WaitsIff(k, c, t); }
    Rebase(k, NOHOLE, k2, NOHOLE, c);
  }

  lemma NullStays(k: Kernel, c: Pid)
    requires Sized(k) && NullOK(k) && c != NULLPROC
    ensures k.procs[NULLPROC].state == READY || k.procs[NULLPROC].state == CURR
  {
  }

  // ---------- The sleep queue ----------

  function InsertDPos(q: seq<Sleeper>, key: int): (i: int)
    ensures 0 <= i <= |q|
  {
    if q == [] || q[0].key > key then 0 else 1 + InsertDPos(q[1..], key - q[0].key)
  }

  lemma {:induction false} InsertDPids(q: seq<Sleeper>, p: Pid, key: int)
    ensures Pids(InsertD(q, p, key)) == InsertAt(Pids(q), InsertDPos(q, key), p)
  {
    if q != [] {
      PidsCons(q[0], q[1..]);
      assert q == [q[0]] + q[1..];
      if q[0].key <= key {
        InsertDPids(q[1..], p, key - q[0].key);
        PidsCons(q[0], InsertD(q[1..], p, key - q[0].key));
        InsertAfterFirst(Pids(q[1..]), InsertDPos(q[1..], key - q[0].key), q[0].pid, p);
      } else {
        PidsCons(q[0].(key := q[0].key - key), q[1..]);
        PidsCons(Sleeper(p, key), [q[0].(key := q[0].key - key)] + q[1..]);
      }
    }
  }

  lemma PidsCons(x: Sleeper, q: seq<Sleeper>)
    ensures Pids([x] + q) == [x.pid] + Pids(q)
  {
  }

  lemma InsertAfterFirst(l: seq<Pid>, i: int, first: Pid, p: Pid)
    requires 0 <= i <= |l|
    ensures InsertAt([first] + l, i + 1, p) == [first] + InsertAt(l, i, p)
  {
  }

  lemma {:induction false} RemoveDPids(q: seq<Sleeper>, p: Pid)
    ensures Pids(RemoveD(q, p)) == Without(Pids(q), p)
  {
    if q != [] {
      assert Pids(q) == [q[0].pid] + Pids(q[1..]);
      if q[0].pid != p {
        RemoveDPids(q[1..], p);
        assert Pids(RemoveD(q, p)) == [q[0].pid] + Pids(RemoveD(q[1..], p));
      } else if |q| > 1 {
        assert Pids(q[1..]) == [q[1].pid] + Pids(q[2..]);
        assert Pids(RemoveD(q, p)) == [q[1].pid] + Pids(q[2..]);
      }
    }
  }

  ghost predicate KeysOK(q: seq<Sleeper>) {
    forall i :: 0 <= i < |q| ==> q[i].key >= 0
  }

  lemma {:induction false} InsertDKeys(q: seq<Sleeper>, p: Pid, key: int)
    requires KeysOK(q) && key >= 0
    ensures KeysOK(InsertD(q, p, key))
  {
    if q != [] && q[0].key <= key { InsertDKeys(q[1..], p, key - q[0].key); }
  }

  lemma {:induction false} RemoveDKeys(q: seq<Sleeper>, p: Pid)
    requires KeysOK(q)
    ensures KeysOK(RemoveD(q, p))
  {
    if q != [] && q[0].pid != p { RemoveDKeys(q[1..], p); }
  }

  lemma WithoutOK(q: seq<Pid>, p: Pid)
    requires QueueOK(q)
    ensures QueueOK(Without(q, p)) && forall x :: x in Without(q, p) <==> x in q && x != p
    ensures p in q ==> |Without(q, p)| == |q| - 1
  {
    WithoutOne(q, p);
    var w := Without(q, p);
    forall i | 0 <= i < |w| ensures IsPid(w[i]) {
      var x: Pid := w[i];
      assert x in w;
      var j :| 0 <= j < |q| && q[j] == x;
    }
  }

  lemma JoinSleep(k: Kernel, delay: int, st: PrState)
    requires Base(k, NOHOLE) && DelaysOK(k) && k.procs[k.currpid].state == CURR && k.currpid != NULLPROC
    requires delay >= 0 && Asleep(st)
    ensures
      var k2 := SetState(k, k.currpid, st).(sleepq := InsertD(k.sleepq, k.currpid, delay));
      Base(k2, NOHOLE) && DelaysOK(k2)
  {
    hide ByPriority, NullOK;
    var c := k.currpid;
    var k2 := SetState(k, c, st).(sleepq := InsertD(k.sleepq, c, delay));
    BaseQueues(k, NOHOLE);
    HomeOf(k, c);
    InsertDPids(k.sleepq, c, delay);
    InsertDKeys(k.sleepq, c, delay);
    InsertAtOK(Pids(k.sleepq), InsertDPos(k.sleepq, delay), c);
    NullStays(k, c);
    PrioFrame(k, k2);
    forall r | r != c ensures Untouched(k, k2, r) {
      InsertAtIn(Pids(k.sleepq), InsertDPos(k.sleepq, delay), c, r);
      forall t ensures SameQueueAt(k, k2, r, t) { }
    }
    InsertAtIn(Pids(k.sleepq), InsertDPos(k.sleepq, delay), c, c);
    forall t ensures WaitsIff(k2, c, t) { assert WaitsIff(k, c, t); }
    Rebase(k, NOHOLE, k2, NOHOLE, c);
  }

  /** sleepms and recvtime, when they block. */
  lemma SleepAsKeeps(k: Kernel, delay: int, st: PrState)
    requires Inv(k) && k.currpid != NULLPROC && k.ndefers == 0 && delay >= 0 && Asleep(st)
    ensures Inv(SleepAs(k, delay, st)) && SleepAs(k, delay, st).ndefers == 0
  {
    hide ByPriority, NullOK, Urgent, Placed, InsertD;
    InvSized(k);
    JoinSleep(k, delay, st);
    var k2 := SetState(k, k.currpid, st).(sleepq := InsertD(k.sleepq, k.currpid, delay));
    InvFromRest(k2, NOHOLE);
    NoDefersKept(k2);
  }

  /** The invariant, except that the first key of the sleep queue may have run out. */
  ghost predicate InvTail(k: Kernel) {
    Base(k, NOHOLE) && Running(k) && SemsOK(k) && (k.sleepq != [] ==> KeysOK(k.sleepq[1..]))
  }

  /** Take the first sleeper off its queue and make it ready. */
  lemma WakeOne(k: Kernel)
    requires InvTail(k) && k.sleepq != []
    ensures IsPid(k.sleepq[0].pid)
    ensures
      var k' := Ready(k.(sleepq := k.sleepq[1..]), k.sleepq[0].pid);
      && Inv(k') && k'.sleepq == k.sleepq[1..] && k'.ndefers == k.ndefers
      && SameRest(SetState(k.(sleepq := k.sleepq[1..]), k.sleepq[0].pid, READY), k')
  {
    hide ByPriority, NullOK, Urgent;
    BaseQueues(k, NOHOLE);
    var q := Pids(k.sleepq);
    var p := q[0];
    var k1 := k.(sleepq := k.sleepq[1..]);
    assert Pids(k1.sleepq) == q[1..];
    TailOK(q);
    HomeOf(k, p);
    PrioFrame(k, k1);
    forall r | r != p ensures Untouched(k, k1, r) { forall t ensures SameQueueAt(k, k1, r, t) { } }
    forall t ensures WaitsNot(k1, p, t) { assert WaitsIff(k, p, t); }
    Rebase(k, NOHOLE, k1, p, p);
    ReadyKeeps(k1, p);
    ReadyRest(k1, p);
    RestInv(SetState(k1, p, READY), Ready(k1, p), NOHOLE);
  }

  lemma TailSized(k: Kernel)
    requires InvTail(k)
    ensures Sized(k) && k.ndefers >= 0 && k.procs[k.currpid].state == CURR
  {
  }

  lemma TailIsInv(k: Kernel)
    requires InvTail(k) && (k.sleepq != [] ==> k.sleepq[0].key >= 0)
    ensures Inv(k)
  {
    forall i | 0 <= i < |k.sleepq| ensures k.sleepq[i].key >= 0 {
      if i > 0 { assert k.sleepq[i] == k.sleepq[1..][i - 1]; }
    }
  }

  lemma InvIsTail(k: Kernel)
    requires Inv(k)
    ensures InvTail(k)
  {
  }

  lemma {:induction false} WakeLoopKeeps(k: Kernel)
    requires InvTail(k)
    ensures Inv(WakeLoop(k)) && WakeLoop(k).ndefers == k.ndefers
    ensures WakeLoop(k).sleepq == [] || WakeLoop(k).sleepq[0].key > 0
    decreases |k.sleepq|
  {
    hide InvTail, Inv, Ready;
    TailSized(k);
    if k.sleepq != [] && k.sleepq[0].key <= 0 {
      WakeOne(k);
      var k' := Ready(k.(sleepq := k.sleepq[1..]), k.sleepq[0].pid);
      InvIsTail(k');
      WakeLoopKeeps(k');
    } else {
      TailIsInv(k);
    }
  }

  lemma DeferTail(k: Kernel)
    requires InvTail(k)
    ensures InvTail(DeferStart(k))
  {
    hide Placed, ByPriority, NullOK;
    BaseSized(k);
    BaseFrame(k, DeferStart(k));
    UrgentFrame(k, DeferStart(k));
  }

  lemma TickSleepersKeeps(k: Kernel)
    requires Inv(k)
    ensures Inv(TickSleepers(k)) && TickSleepers(k).ndefers == k.ndefers
  {
    hide Placed, ByPriority, NullOK, Urgent, WakeLoop;
    InvSized(k);
    if k.sleepq != [] {
      var k1 := k.(sleepq := [k.sleepq[0].(key := k.sleepq[0].key - 1)] + k.sleepq[1..]);
      assert Pids(k1.sleepq) == Pids(k.sleepq);
      BaseFrame(k, k1);
      UrgentFrame(k, k1);
      assert k1.sleepq[1..] == k.sleepq[1..];
      hide Inv, InvTail, DeferStop;
      if k1.sleepq[0].key <= 0 {
        DeferTail(k1);
        DeferStarted(k1);
        WakeLoopKeeps(DeferStart(k1));
        DeferInv(WakeLoop(DeferStart(k1)));
      } else {
        TailIsInv(k1);
      }
    }
  }

  lemma TickKeeps(k: Kernel)
    requires Inv(k)
    ensures Inv(Tick(k)) && Tick(k).ndefers == k.ndefers
  {
    hide Placed, ByPriority, NullOK, TickSleepers;
    InvSized(k);
    TickSleepersKeeps(k);
    var k1 := TickSleepers(k);
    if k1.currpid != k.currpid {
      BaseFrame(k1, Tick(k));
      UrgentFrame(k1, Tick(k));
    } else if k1.preempt - 1 <= 0 {
      var k2 := k1.(preempt := QUANTUM);
      BaseFrame(k1, k2);
      ReschedKeeps(k2);
      ReschedRest(k2);
      NoDefersKept(k2);
      RestInv(k2, Resched(k2), NOHOLE);
    } else {
      BaseFrame(k1, Tick(k));
      UrgentFrame(k1, Tick(k));
    }
  }

  lemma ReschedInv(k: Kernel)
    requires Inv(k)
    ensures Inv(Resched(k)) && Resched(k).ndefers == k.ndefers
  {
    hide Placed, ByPriority, NullOK, Urgent;
    InvSized(k);
    ReschedKeeps(k);
    ReschedRest(k);
    NoDefersKept(k);
    RestInv(k, Resched(k), NOHOLE);
  }

  // ---------- Process calls ----------

  /** The current process leaves for a state without a queue. */
  lemma ParkKeeps(k: Kernel, k1: Kernel, st: PrState)
    requires Inv(k) && k.currpid != NULLPROC && k.ndefers == 0 && (st == SUSP || st == RECV || st == FREE)
    requires k1 == SetState(k, k.currpid, st).(midtick := k1.midtick)
    ensures Inv(Resched(k1)) && Resched(k1).ndefers == 0
  {
    hide Placed, ByPriority, NullOK, Urgent;
    InvSized(k);
    AsHole(k, k.currpid);
    FillHole(k, k.currpid, st);
    BaseFrame(SetState(k, k.currpid, st), k1);
    InvFromRest(k1, NOHOLE);
    NoDefersKept(k1);
  }

  /** A ready process that is not the null process leaves the ready list. */
  lemma UnreadyKeeps(k: Kernel, p: Pid, st: PrState, k1: Kernel)
    requires Inv(k) && IsPid(p) && p != NULLPROC && k.procs[p].state == READY && (st == SUSP || st == FREE)
    requires k1 == SetState(k, p, st).(ready := Without(k.ready, p), midtick := k1.midtick)
    ensures Inv(k1)
  {
    hide NullOK, Urgent, ByPriority;
    BaseQueues(k, NOHOLE);
    HomeOf(k, p);
    WithoutOK(k.ready, p);
    WithoutSorted(k, k1, p);
    forall r | r != p ensures Untouched(k, k1, r) { forall t ensures SameQueueAt(k, k1, r, t) { } }
    forall t ensures WaitsIff(k1, p, t) { assert WaitsIff(k, p, t); }
    Rebase(k, NOHOLE, k1, NOHOLE, p);
  }

  lemma WithoutSub(q: seq<Pid>, p: Pid, i: int, j: int) returns (i': int, j': int)
    requires 0 <= i < j < |Without(q, p)|
    ensures 0 <= i' < j' < |q| && Without(q, p)[i] == q[i'] && Without(q, p)[j] == q[j']
  {
    if q[0] == p {
      i', j' := i + 1, j + 1;
    } else if i > 0 {
      i', j' := WithoutSub(q[1..], p, i - 1, j - 1);
      i', j' := i' + 1, j' + 1;
    } else {
      i' := 0;
      j' := WithoutIndex(q[1..], p, j - 1);
      j' := j' + 1;
    }
  }

  lemma WithoutIndex(q: seq<Pid>, p: Pid, i: int) returns (i': int)
    requires 0 <= i < |Without(q, p)|
    ensures 0 <= i' < |q| && Without(q, p)[i] == q[i']
  {
    if q[0] == p {
      i' := i + 1;
    } else if i == 0 {
      i' := 0;
    } else {
      i' := WithoutIndex(q[1..], p, i - 1);
      i' := i' + 1;
    }
  }

  lemma WithoutSorted(k: Kernel, k1: Kernel, p: Pid)
    requires Sized(k) && Sized(k1) && ByPriority(k) && NullOK(k) && IsPid(p) && p != NULLPROC
              && k.procs[p].state == READY
    requires k1.ready == Without(k.ready, p) && k1.currpid == k.currpid
              && k1.procs == k.procs[p := k.procs[p].(state := k1.procs[p].state)]
    ensures ByPriority(k1) && NullOK(k1) && (Urgent(k) ==> Urgent(k1))
  {
    forall a, b | 0 <= a < b < |k1.ready| ensures NotBefore(k1, k1.ready[a], k1.ready[b]) {
      var a', b' := WithoutSub(k.ready, p, a, b);
      assert NotBefore(k, k.ready[a'], k.ready[b']);
    }
    forall q | IsPid(q) ensures PrioOK(k1, q) { assert PrioOK(k, q); }
    if Urgent(k) {
      forall i | 0 <= i < |k1.ready| ensures NotBefore(k1, k1.currpid, k1.ready[i]) {
        var i' := WithoutIndex(k.ready, p, i);
        assert NotBefore(k, k.currpid, k.ready[i']);
      }
    }
  }

  lemma SuspendKeeps(k: Kernel, p: Pid)
    requires Inv(k) && Allowed(k, CSuspend(p))
    ensures Inv(Suspend(k, p))
  {
    hide Inv, Resched;
    InvSized(k);
    if !BadPid(k, p) && p != NULLPROC {
      if k.procs[p].state == READY {
        UnreadyKeeps(k, p, SUSP, Suspend(k, p));
      } else if k.procs[p].state == CURR {
        CurrIsCurrent(k, p);
        ParkKeeps(k, SetState(k, p, SUSP), SUSP);
      }
    }
  }

  lemma CurrIsCurrent(k: Kernel, p: Pid)
    requires Inv(k) && IsPid(p) && k.procs[p].state == CURR
    ensures p == k.currpid
  {
    HomeOf(k, p);
  }

  /** A process in a state without a queue becomes ready. */
  lemma ReadyInv(k: Kernel, p: Pid)
    requires Inv(k) && IsPid(p) && (k.procs[p].state == SUSP || k.procs[p].state == RECV)
    ensures Inv(Ready(k, p)) && Ready(k, p).ndefers == k.ndefers
  {
    hide Placed, ByPriority, NullOK, Urgent;
    InvSized(k);
    AsHole(k, p);
    ReadyKeeps(k, p);
    ReadyRest(k, p);
    RestInv(SetState(k, p, READY), Ready(k, p), NOHOLE);
  }

  /** A sleeper is taken off the sleep queue early. */
  lemma UnsleepHole(k: Kernel, p: Pid)
    requires Inv(k) && IsPid(p) && Asleep(k.procs[p].state)
    ensures Base(k.(sleepq := RemoveD(k.sleepq, p)), p) && DelaysOK(k.(sleepq := RemoveD(k.sleepq, p)))
  {
    hide ByPriority, NullOK;
    var k1 := k.(sleepq := RemoveD(k.sleepq, p));
    BaseQueues(k, NOHOLE);
    HomeOf(k, p);
    RemoveDPids(k.sleepq, p);
    RemoveDKeys(k.sleepq, p);
    WithoutOK(Pids(k.sleepq), p);
    PrioFrame(k, k1);
    forall r | r != p ensures Untouched(k, k1, r) { forall t ensures SameQueueAt(k, k1, r, t) { } }
    forall t ensures WaitsNot(k1, p, t) { assert WaitsIff(k, p, t); }
    Rebase(k, NOHOLE, k1, p, p);
  }

  lemma DeliverKeeps(k: Kernel, p: Pid)
    requires Inv(k)
    ensures Inv(Deliver(k, p))
  {
    hide Placed, ByPriority, NullOK, Urgent, RemoveD;
    InvSized(k);
    if !BadPid(k, p) {
      if k.procs[p].state == RECV {
        ReadyInv(k, p);
      } else if k.procs[p].state == RECTIM {
        UnsleepHole(k, p);
        var k1 := k.(sleepq := RemoveD(k.sleepq, p));
        ReadyKeeps(k1, p);
        ReadyRest(k1, p);
        RestInv(SetState(k1, p, READY), Ready(k1, p), NOHOLE);
      }
    }
  }

  lemma NotNullHere(k: Kernel, p: Pid)
    requires Inv(k) && IsPid(p) && k.procs[p].state != READY && k.procs[p].state != CURR
    ensures p != NULLPROC
  {
  }

  /** A process in a state without a queue, other than the current one, is freed. */
  lemma FreeIdle(k: Kernel, p: Pid, f: Kernel)
    requires Inv(k) && IsPid(p) && k.procs[p].state in {SUSP, RECV} && f == SetState(k, p, FREE).(midtick := f.midtick)
    ensures Inv(f)
  {
    hide Placed, ByPriority, NullOK;
    InvSized(k);
    NotNullHere(k, p);
    AsHole(k, p);
    FillHole(k, p, FREE);
    BaseFrame(SetState(k, p, FREE), f);
    UrgentFrame(k, f);
  }

  lemma FreeSleeper(k: Kernel, p: Pid, f: Kernel)
    requires Inv(k) && IsPid(p) && Asleep(k.procs[p].state)
    requires f == SetState(k, p, FREE).(sleepq := RemoveD(k.sleepq, p), midtick := f.midtick)
    ensures Inv(f)
  {
    hide Placed, ByPriority, NullOK, RemoveD;
    InvSized(k);
    NotNullHere(k, p);
    UnsleepHole(k, p);
    var k1 := k.(sleepq := RemoveD(k.sleepq, p));
    FillHole(k1, p, FREE);
    BaseFrame(SetState(k1, p, FREE), f);
    UrgentFrame(k, f);
  }

  lemma FreeWaiter(k: Kernel, p: Pid, f: Kernel)
    requires Inv(k) && IsPid(p) && k.procs[p].state == WAIT
    requires 0 <= k.procs[p].sem < NSEM
    requires
      var s := k.procs[p].sem;
      f == SetSem(SetState(k, p, FREE), s,
          k.sems[s].(count := k.sems[s].count + 1, queue := Without(k.sems[s].queue, p)))
           .(midtick := f.midtick)
    ensures Inv(f)
  {
    hide ByPriority, NullOK, Urgent;
    var s := k.procs[p].sem;
    BaseQueues(k, NOHOLE);
    HomeOf(k, p);
    NotNullHere(k, p);
    assert WaitsIff(k, p, s);
    WithoutOK(k.sems[s].queue, p);
    NullStays(k, p);
    PrioFrame(k, f);
    UrgentFrame(k, f);
    forall r | r != p ensures Untouched(k, f, r) { forall t ensures SameQueueAt(k, f, r, t) { } }
    forall t ensures WaitsIff(f, p, t) { assert WaitsIff(k, p, t); }
    Rebase(k, NOHOLE, f, NOHOLE, p);
    assert SemOK(k.sems[s]);
  }

  lemma WaiterSem(k: Kernel, p: Pid)
    requires Inv(k) && IsPid(p) && k.procs[p].state == WAIT
    ensures 0 <= k.procs[p].sem < NSEM
  {
    HomeOf(k, p);
  }

  lemma KillKeeps(k: Kernel, p: Pid)
    requires Inv(k) && Allowed(k, CKill(p))
    ensures Inv(Kill(k, p))
  {
    hide Inv, Resched, RemoveD;
    InvSized(k);
    if !BadPid(k, p) && p != NULLPROC {
      match k.procs[p].state
      case CURR =>
        CurrIsCurrent(k, p);
        ParkKeeps(k, SetState(k, p, FREE).(midtick := k.midtick - {p}), FREE);
      case SLEEP => FreeSleeper(k, p, Kill(k, p));
      case RECTIM => FreeSleeper(k, p, Kill(k, p));
      case WAIT => WaiterSem(k, p); FreeWaiter(k, p, Kill(k, p));
      case READY => UnreadyKeeps(k, p, FREE, Kill(k, p));
      case SUSP => FreeIdle(k, p, Kill(k, p));
      case RECV => FreeIdle(k, p, Kill(k, p));
      case FREE =>
    }
  }

  lemma CreateKeeps(k: Kernel, p: Pid, prio: int)
    requires Inv(k)
    ensures Inv(Create(k, p, prio))
  {
    hide ByPriority, NullOK, Urgent;
    BaseQueues(k, NOHOLE);
    if IsPid(p) && k.procs[p].state == FREE && prio >= 1 {
      var k1 := Create(k, p, prio);
      HomeOf(k, p);
      NotNullHere(k, p);
      CreatePrio(k, p, prio);
      forall r | r != p ensures Untouched(k, k1, r) { forall t ensures SameQueueAt(k, k1, r, t) { } }
      forall t ensures WaitsIff(k1, p, t) { assert WaitsIff(k, p, t); }
      Rebase(k, NOHOLE, k1, NOHOLE, p);
    }
  }

  lemma CreatePrio(k: Kernel, p: Pid, prio: int)
    requires Sized(k) && QueueOK(k.ready) && ByPriority(k) && NullOK(k) && IsPid(p) && k.procs[p].state == FREE
              && prio >= 1
    requires p != NULLPROC && p !in k.ready && k.procs[k.currpid].state == CURR
    ensures
      var k1 := Create(k, p, prio);
      ByPriority(k1) && NullOK(k1) && (Urgent(k) ==> Urgent(k1))
  {
    var k1 := Create(k, p, prio);
    forall q | q != p ensures Prio(k1, q) == Prio(k, q) { }
    forall q | IsPid(q) ensures PrioOK(k1, q) { assert PrioOK(k, q); }
    forall a, b | 0 <= a < b < |k1.ready| ensures NotBefore(k1, k1.ready[a], k1.ready[b]) {
      assert NotBefore(k, k.ready[a], k.ready[b]);
    }
    if Urgent(k) {
      forall i | 0 <= i < |k1.ready| ensures NotBefore(k1, k1.currpid, k1.ready[i]) {
        assert NotBefore(k, k.currpid, k.ready[i]);
      }
    }
  }

  // ---------- Processes taken off a queue ----------

  /** The first process of a semaphore queue, once it is taken off. */
  lemma DequeueHole(k: Kernel, s: int, sem: Sem)
    requires InvBut(k, s) && 0 <= s < NSEM && k.sems[s].queue != [] && sem.queue == k.sems[s].queue[1..]
    ensures
      var x := k.sems[s].queue[0];
      IsPid(x) && Base(SetSem(k, s, sem), x) && k.procs[x].state == WAIT
  {
    hide ByPriority, NullOK, Urgent;
    BaseQueues(k, NOHOLE);
    var q := k.sems[s].queue;
    var x := q[0];
    var k1 := SetSem(k, s, sem);
    TailOK(q);
    HomeOf(k, x);
    assert WaitsIff(k, x, s);
    PrioFrame(k, k1);
    forall r | r != x ensures Untouched(k, k1, r) { forall t ensures SameQueueAt(k, k1, r, t) { } }
    forall t ensures WaitsNot(k1, x, t) { assert WaitsIff(k, x, t); }
    Rebase(k, NOHOLE, k1, x, x);
  }

  /** The first process of the sleep queue, once it is taken off. */
  lemma SleeperHole(k: Kernel)
    requires InvTail(k) && k.sleepq != []
    ensures
      var x := k.sleepq[0].pid;
      IsPid(x) && Base(k.(sleepq := k.sleepq[1..]), x) && Asleep(k.procs[x].state)
  {
    hide ByPriority, NullOK, Urgent;
    BaseQueues(k, NOHOLE);
    var q := Pids(k.sleepq);
    var x := q[0];
    var k1 := k.(sleepq := k.sleepq[1..]);
    assert Pids(k1.sleepq) == q[1..];
    TailOK(q);
    HomeOf(k, x);
    PrioFrame(k, k1);
    forall r | r != x ensures Untouched(k, k1, r) { forall t ensures SameQueueAt(k, k1, r, t) { } }
    forall t ensures WaitsNot(k1, x, t) { assert WaitsIff(k, x, t); }
    Rebase(k, NOHOLE, k1, x, x);
  }

  lemma TailBase(k: Kernel)
    requires InvTail(k)
    ensures Base(k, NOHOLE)
  {
  }

  // ---------- Every call, every run ----------

  /** Every kernel call keeps the invariant. */
  lemma StepKeeps(k: Kernel, c: Call)
    requires Inv(k) && Allowed(k, c)
    ensures Inv(Step(k, c))
  {
    hide Inv, Resched, Ready, DeferStart, DeferStop, SignalN, SemCreate, SemDelete, SemReset, SleepAs, Suspend, Kill,
        Create, Deliver, Tick, Wait;
    InvSized(k);
    match c
    case CWait(s) => WaitKeeps(k, s);
    case CSignal(s) => if GoodSem(k, s) { SignalOneKeeps(k, s); }
    case CSignalN(s, n) => SignalNKeeps(k, s, n);
    case CSemCreate(n) => SemCreateKeeps(k, n);
    case CSemDelete(s) => SemDeleteKeeps(k, s);
    case CSemReset(s, n) => SemResetKeeps(k, s, n);
    case CSleep(d) => if d == 0 { ReschedInv(k); } else if d > 0 { SleepAsKeeps(k, d, SLEEP); }
    case CRecvTime(d) => if d >= 0 { SleepAsKeeps(k, d, RECTIM); }
    case CReceive => ParkKeeps(k, SetState(k, k.currpid, RECV), RECV);
    case CDeliver(p) => DeliverKeeps(k, p);
    case CYield => ReschedInv(k);
    case CSuspend(p) => SuspendKeeps(k, p);
    case CResume(p) => if !BadPid(k, p) && k.procs[p].state == SUSP { ReadyInv(k, p); }
    case CKill(p) => KillKeeps(k, p);
    case CCreate(p, prio) => CreateKeeps(k, p, prio);
    case CTick => TickKeeps(k);
    case CDeferStart => DeferInv(k);
    case CDeferStop => DeferInv(k);
  }

  /** A process `p` that has given up the processor but keeps it, or the null process, which must not give it up. */
  lemma Parked(k: Kernel, p: Pid)
    requires Sized(k) && k.currpid == p && k.procs[p].state != CURR && k.procs[p].state != READY && p !in k.ready
    requires p == NULLPROC || k.ndefers > 0
    ensures !Inv(Resched(k))
  {
    hide Placed, ByPriority, DelaysOK, SemsOK;
  }

  lemma CurrentHere(k: Kernel)
    requires Inv(k)
    ensures Sized(k) && k.procs[k.currpid].state == CURR && k.currpid !in k.ready && k.ndefers >= 0
  {
    InvSized(k);
    HomeOf(k, k.currpid);
  }

  /** A call that blocks the null process, or blocks under an outstanding deferral, breaks the invariant. */
  lemma ForbiddenBreaks(k: Kernel, c: Call)
    requires Inv(k) && Sized(k) && !Allowed(k, c)
    ensures !Inv(Step(k, c))
  {
    hide Inv, Resched, InsertD;
    CurrentHere(k);
    var p := k.currpid;
    match c
    case CWait(s) =>
      var sem := k.sems[s];
      var k1 := SetSem(k, s, sem.(count := sem.count - 1, queue := sem.queue + [p]));
      Parked(k1.(procs := k1.procs[p := k1.procs[p].(state := WAIT, sem := s)]), p);
    case CSleep(d) => Parked(SetState(k, p, SLEEP).(sleepq := InsertD(k.sleepq, p, d)), p);
    case CRecvTime(d) => Parked(SetState(k, p, RECTIM).(sleepq := InsertD(k.sleepq, p, d)), p);
    case CReceive => Parked(SetState(k, p, RECV), p);
    case CSuspend(_) => Parked(SetState(k, p, SUSP), p);
    case CKill(_) => Parked(SetState(k, p, FREE).(midtick := k.midtick - {p}), p);
    case _ =>
  }

  /** ... so a call keeps the invariant exactly if the null process does not block in it and nobody blocks in it
      under an outstanding deferral. */
  lemma StepKeepsIff(k: Kernel, c: Call)
    requires Inv(k)
    ensures Sized(k) && (Inv(Step(k, c)) <==> Allowed(k, c))
  {
    hide Inv, Step, Allowed;
    InvSized(k);
    if Allowed(k, c) { StepKeeps(k, c); } else { ForbiddenBreaks(k, c); }
  }

  /** The states before, between and after calls that are made whether allowed or not. */
  ghost predicate InvThroughout(k: Kernel, cs: seq<Call>)
    decreases |cs|
  {
    Inv(k) && (cs != [] ==> Sized(k) && InvThroughout(Step(k, cs[0]), cs[1..]))
  }

  /** The invariant holds all along a run exactly if every call of it is allowed where it is made. */
  lemma {:induction false} RunKeepsIff(k: Kernel, cs: seq<Call>)
    requires Inv(k)
    ensures InvThroughout(k, cs) <==> Path(k, cs)
    decreases |cs|
  {
    hide Inv, Step, Allowed;
    InvSized(k);
    if cs != [] {
      StepKeepsIff(k, cs[0]);
      if Allowed(k, cs[0]) { RunKeepsIff(Step(k, cs[0]), cs[1..]); }
    }
  }

  /** The calls can be made one after the other. */
  predicate Path(k: Kernel, cs: seq<Call>)
    decreases |cs|
  {
    cs == [] || (Sized(k) && Allowed(k, cs[0]) && Path(Step(k, cs[0]), cs[1..]))
  }

  function Run(k: Kernel, cs: seq<Call>): Kernel
    requires Path(k, cs)
    decreases |cs|
  {
    if cs == [] then k else Run(Step(k, cs[0]), cs[1..])
  }

  lemma {:induction false} RunKeeps(k: Kernel, cs: seq<Call>)
    requires Inv(k) && Path(k, cs)
    ensures Inv(Run(k, cs))
    decreases |cs|
  {
    hide Inv, Step;
    if cs != [] {
      StepKeeps(k, cs[0]);
      RunKeeps(Step(k, cs[0]), cs[1..]);
    }
  }

  /** sysinit: the null process runs, everything else is free. */
  function Boot(): Kernel {
    Kernel(seq(NPROC, p => if p == NULLPROC then Proc(CURR, 0, -1) else Proc(FREE, 0, -1)), [], [],
           seq(NSEM, _ => Sem(false, 0, [])), NULLPROC, 0, false, QUANTUM, 0, {})
  }

  lemma BootInv()
    ensures Inv(Boot())
  {
    var k := Boot();
    forall p | IsPid(p) ensures Home(k, p) { forall s ensures WaitsIff(k, p, s) { } }
    forall p | IsPid(p) ensures PrioOK(k, p) { }
  }
}
