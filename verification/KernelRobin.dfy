/** Round robin: processes of the same priority take turns. */
module KernelRobin {
  import opened KernelState
  import opened KernelSafety
  import opened KernelRuns
  import opened KernelSleep
  import opened KernelSlices
  import opened Sequences

  lemma IndexUnique(q: seq<Pid>, p: Pid, i: int)
    requires 0 <= i < |q| && q[i] == p && forall j :: 0 <= j < i ==> q[j] != p
    ensures IndexOf(q, p) == i
  {
    IndexOfIn(q, p);
  }

  lemma IndexInsert(q: seq<Pid>, i: int, x: Pid, p: Pid)
    requires p in q && x != p && IndexOf(q, p) < i <= |q|
    ensures p in InsertAt(q, i, x) && IndexOf(InsertAt(q, i, x), p) == IndexOf(q, p)
  {
    IndexOfIn(q, p);
    IndexUnique(InsertAt(q, i, x), p, IndexOf(q, p));
  }

  lemma {:induction false} IndexWithout(q: seq<Pid>, x: Pid, p: Pid)
    requires p in q && x != p
    ensures p in Without(q, x) && IndexOf(Without(q, x), p) <= IndexOf(q, p)
  {
    assert q == [q[0]] + q[1..];
    if q[0] == p {
      assert Without(q, x)[0] == p;
    } else if q[0] != x {
      IndexWithout(q[1..], x, p);
      assert Without(q, x)[1..] == Without(q[1..], x);
    }
  }

  lemma IndexTail(q: seq<Pid>, p: Pid)
    requires p in q && q[0] != p
    ensures p in q[1..] && IndexOf(q[1..], p) == IndexOf(q, p) - 1
  {
    assert q == [q[0]] + q[1..];
  }

  /** The number of processes ahead of `p` in the ready list. */
  function Rank(k: Kernel, p: Pid): nat {
    IndexOf(k.ready, p)
  }

  /** No process that is ready or running has a higher priority than `p`. */
  ghost predicate NoneAbove(k: Kernel, p: Pid)
    requires Sized(k) && IsPid(p)
  {
    forall q :: NotAbove(k, p, q)
  }

  ghost predicate NotAbove(k: Kernel, p: Pid, q: Pid)
    requires Sized(k) && IsPid(p)
  {
    IsPid(q) && Active(k.procs[q].state) ==> k.procs[q].prio <= k.procs[p].prio
  }

  /** `p` has not lost its place, and has moved up if the processor changed hands, or it has the processor. */
  ghost predicate Served(k: Kernel, k': Kernel, p: Pid)
    requires Sized(k) && Sized(k') && IsPid(p)
  {
    || p == k'.currpid
    || (k'.procs[p].state == READY && Rank(k', p) <= Rank(k, p)
       && (k'.currpid != k.currpid ==> Rank(k', p) < Rank(k, p)))
  }

  lemma ReadyInList(k: Kernel, p: Pid)
    requires Base(k, NOHOLE) && IsPid(p)
    ensures p in k.ready <==> k.procs[p].state == READY
    ensures k.procs[k.currpid].state == CURR ==> k.currpid !in k.ready
  {
    HomeOf(k, p);
    HomeOf(k, k.currpid);
  }

  lemma PrioSame(k: Kernel, x: Pid)
    requires Sized(k) && IsPid(x)
    ensures forall q :: Prio(SetState(k, x, READY), q) == Prio(k, q)
  {
  }

  /** Joining the ready list with a priority not above that of `p` leaves `p` its place. */
  lemma JoinBehind(k: Kernel, x: Pid, p: Pid)
    requires Base(k, x) && IsPid(x) && IsPid(p) && x != p && p in k.ready && k.procs[x].prio <= k.procs[p].prio
    ensures
      var k' := Insert(SetState(k, x, READY), x);
      p in k'.ready && Rank(k', p) == Rank(k, p)
  {
    var k1 := SetState(k, x, READY);
    IndexOfIn(k.ready, p);
    var n := IndexOf(k.ready, p);
    var i := InsertPos(k1, k1.ready, Prio(k1, x));
    PrioSame(k, x);
    forall j | 0 <= j < n ensures Prio(k, k.ready[j]) >= Prio(k, k.ready[n]) {
      assert NotBefore(k, k.ready[j], k.ready[n]);
    }
    IndexInsert(k.ready, i, x, p);
  }

  /** A rescheduling that finds `p` among the most urgent gives the processor to the first of them. */
  lemma ReschedServes(k: Kernel, p: Pid)
    requires Base(k, NOHOLE) && k.ndefers == 0 && IsPid(p) && k.procs[p].state == READY
    requires k.procs[k.currpid].state == CURR ==> k.procs[k.currpid].prio <= k.procs[p].prio
    requires k.procs[k.currpid].state != READY
    ensures
      var k' := Resched(k);
      && (p == k'.currpid || (p in k'.ready && Rank(k', p) == Rank(k, p) - 1))
      && k'.currpid != k.currpid
  {
    hide NullOK, ByPriority;
    ReadyInList(k, p);
    ReadyInList(k, k.currpid);
    IndexOfIn(k.ready, p);
    if k.procs[k.currpid].state == CURR {
      HeadAtLeast(k, p);
      AsHole(k, k.currpid);
      JoinBehind(k, k.currpid, p);
      var k1 := Insert(SetState(k, k.currpid, READY), k.currpid);
      HeadSame(k, k.currpid, p);
      if k1.ready[0] != p { IndexTail(k1.ready, p); }
    } else {
      HeadIsReady(k);
      if k.ready[0] != p { IndexTail(k.ready, p); }
    }
  }

  lemma HeadIsReady(k: Kernel)
    requires Base(k, NOHOLE) && k.ready != []
    ensures IsPid(k.ready[0]) && k.procs[k.ready[0]].state == READY
  {
    HomeOf(k, k.ready[0]);
  }

  lemma HeadAtLeast(k: Kernel, p: Pid)
    requires Base(k, NOHOLE) && p in k.ready
    ensures Prio(k, k.ready[0]) >= Prio(k, p)
  {
    IndexOfIn(k.ready, p);
    if IndexOf(k.ready, p) > 0 { assert NotBefore(k, k.ready[0], k.ready[IndexOf(k.ready, p)]); }
  }

  /** The head of the ready list stays when a process joins behind another. */
  lemma HeadSame(k: Kernel, x: Pid, p: Pid)
    requires Base(k, x) && IsPid(x) && p in k.ready && k.procs[x].prio <= Prio(k, p)
    ensures
      var k1 := Insert(SetState(k, x, READY), x);
      k1.ready[0] == k.ready[0] && IsPid(k.ready[0]) && k.ready[0] != x
  {
    var k1 := SetState(k, x, READY);
    IndexOfIn(k.ready, p);
    var i := InsertPos(k1, k1.ready, Prio(k1, x));
    PrioSame(k, x);
    if IndexOf(k.ready, p) > 0 { assert NotBefore(k, k.ready[0], k.ready[IndexOf(k.ready, p)]); }
  }

  lemma CurrentNotAbove(k: Kernel, p: Pid)
    requires Inv(k) && IsPid(p) && NoneAbove(k, p)
    ensures Sized(k) && k.procs[k.currpid].prio <= k.procs[p].prio
  {
    InvSized(k);
    assert NotAbove(k, p, k.currpid);
  }

  // ---------- A process becoming ready ----------

  lemma ReadyServes(k: Kernel, x: Pid, p: Pid)
    requires Base(k, x) && IsPid(x) && IsPid(p) && x != p && p in k.ready && k.procs[k.currpid].state == CURR
              && x != k.currpid
    requires k.procs[x].state != FREE && k.procs[p].state == READY
    requires k.procs[x].prio <= k.procs[p].prio && k.procs[k.currpid].prio <= k.procs[p].prio
    ensures k.ndefers > 0 ==>
              p in Ready(k, x).ready && Rank(Ready(k, x), p) == Rank(k, p)
              && Ready(k, x).currpid == k.currpid
    ensures k.ndefers > 0 ==> Ready(k, x).procs == SetState(k, x, READY).procs
    ensures k.ndefers == 0 ==> Served(k, Ready(k, x), p)
  {
    hide Base, Resched, InsertPos, IndexOf;
    HoleSized(k, x);
    JoinReady(k, x);
    JoinBehind(k, x, p);
    var k1 := Insert(SetState(k, x, READY), x);
    NoDefersKept(k1);
    if k.ndefers == 0 {
      ReschedServes(k1, p);
      ReschedKeeps(k1);
      ReadyInList(Resched(k1), p);
    }
  }

  // ---------- Loops under deferral ----------

  ghost predicate Below(k: Kernel, q: seq<Pid>, p: Pid)
    requires Sized(k) && IsPid(p)
  {
    forall i :: 0 <= i < |q| ==> Prio(k, q[i]) <= k.procs[p].prio
  }

  /** What a loop that only makes processes ready does while rescheduling is deferred. */
  ghost predicate Waits(k: Kernel, k': Kernel, p: Pid)
    requires Sized(k) && Sized(k') && IsPid(p)
  {
    && k'.procs[p].state == READY && Rank(k', p) == Rank(k, p) && k'.currpid == k.currpid
    && forall r :: SamePrio(k, k', r)
  }

  ghost predicate SamePrio(k: Kernel, k': Kernel, r: Pid)
    requires Sized(k) && Sized(k')
  {
    Prio(k', r) == Prio(k, r)
  }

  lemma WaitsThen(k: Kernel, k1: Kernel, k2: Kernel, p: Pid)
    requires Sized(k) && Sized(k1) && Sized(k2) && IsPid(p) && Waits(k, k1, p) && Waits(k1, k2, p)
    ensures Waits(k, k2, p)
  {
    forall r ensures SamePrio(k, k2, r) { assert SamePrio(k, k1, r) && SamePrio(k1, k2, r); }
  }

  /** Taking the first process off a semaphore queue and making it ready, deferred. */
  lemma DequeueWaits(k: Kernel, s: int, sem: Sem, p: Pid)
    requires InvBut(k, s) && 0 <= s < NSEM && k.sems[s].queue != [] && sem.queue == k.sems[s].queue[1..]
              && k.ndefers > 0
    requires IsPid(p) && k.procs[p].state == READY
    requires Prio(k, k.sems[s].queue[0]) <= k.procs[p].prio && k.procs[k.currpid].prio <= k.procs[p].prio
    ensures IsPid(k.sems[s].queue[0]) && Waits(k, Ready(SetSem(k, s, sem), k.sems[s].queue[0]), p)
  {
    hide ByPriority, NullOK, Urgent, Resched, InsertPos, IndexOf;
    var x := k.sems[s].queue[0];
    var k1 := SetSem(k, s, sem);
    DequeueHole(k, s, sem);
    ReadyInList(k, p);
    ReadyServes(k1, x, p);
    ReadyRest(k1, x);
    forall r ensures SamePrio(k, Ready(k1, x), r) { assert SameProc(SetState(k1, x, READY), Ready(k1, x), r); }
  }

  lemma {:induction false} SignalLoopWaits(k: Kernel, s: int, n: nat, p: Pid)
    requires Inv(k) && GoodSem(k, s) && k.ndefers > 0 && IsPid(p) && k.procs[p].state == READY
    requires Below(k, k.sems[s].queue[..Min(n, |k.sems[s].queue|)], p) && k.procs[k.currpid].prio <= k.procs[p].prio
    ensures Waits(k, SignalLoop(k, s, n), p)
    decreases n
  {
    hide Inv, InvBut, SignalOne, Waits, Ready;
    InvSized(k);
    var q := k.sems[s].queue;
    if n > 0 {
      SignalOneKeeps(k, s);
      SignalOneWakes(k, s);
      var k1 := SignalOne(k, s);
      SignalOneWaits(k, s, p);
      var q1 := k1.sems[s].queue;
      assert Below(k1, q1[..Min(n - 1, |q1|)], p) by { BelowTail(k, k1, q, q1, n, p); }
      WaitsCurrent(k, k1, p);
      SignalLoopWaits(k1, s, n - 1, p);
      WaitsThen(k, k1, SignalLoop(k, s, n), p);
    } else {
      WaitsSelf(k, p);
    }
  }

  lemma WaitsSelf(k: Kernel, p: Pid)
    requires Sized(k) && IsPid(p) && k.procs[p].state == READY
    ensures Waits(k, k, p)
  {
  }

  lemma WaitsCurrent(k: Kernel, k1: Kernel, p: Pid)
    requires Sized(k) && Sized(k1) && IsPid(p) && Waits(k, k1, p) && k.procs[k.currpid].prio <= k.procs[p].prio
    ensures k1.procs[k1.currpid].prio <= k1.procs[p].prio && k1.procs[p].state == READY
  {
    assert SamePrio(k, k1, k.currpid) && SamePrio(k, k1, p);
  }

  lemma BelowTail(k: Kernel, k1: Kernel, q: seq<Pid>, q1: seq<Pid>, n: nat, p: Pid)
    requires Sized(k) && Sized(k1) && IsPid(p) && n > 0 && Waits(k, k1, p) && Below(k, q[..Min(n, |q|)], p)
    requires if q == [] then q1 == [] else q1 == q[1..]
    ensures Below(k1, q1[..Min(n - 1, |q1|)], p)
  {
    assert SamePrio(k, k1, p);
    var t := q1[..Min(n - 1, |q1|)];
    forall i | 0 <= i < |t| ensures Prio(k1, t[i]) <= k1.procs[p].prio {
      assert SamePrio(k, k1, q1[i]);
      assert q[..Min(n, |q|)][i + 1] == q1[i];
    }
  }

  lemma SignalOneWaits(k: Kernel, s: int, p: Pid)
    requires Inv(k) && GoodSem(k, s) && k.ndefers > 0 && IsPid(p) && k.procs[p].state == READY
    requires k.sems[s].queue != [] ==> Prio(k, k.sems[s].queue[0]) <= k.procs[p].prio
    requires k.procs[k.currpid].prio <= k.procs[p].prio
    ensures Waits(k, SignalOne(k, s), p)
  {
    hide InvBut, Inv, Ready;
    InvIsBut(k, s);
    InvSized(k);
    var sem := k.sems[s];
    if sem.queue != [] {
      DequeueWaits(k, s, sem.(count := sem.count + 1, queue := sem.queue[1..]), p);
    } else {
      forall r ensures SamePrio(k, SignalOne(k, s), r) { }
    }
  }

  lemma {:induction false} ReadyAllWaits(k: Kernel, s: int, countUp: bool, p: Pid)
    requires InvBut(k, s) && 0 <= s < NSEM && k.ndefers > 0 && IsPid(p) && k.procs[p].state == READY
    requires Below(k, k.sems[s].queue, p) && k.procs[k.currpid].prio <= k.procs[p].prio
    ensures Waits(k, ReadyAll(k, s, countUp), p)
    decreases |k.sems[s].queue|
  {
    hide InvBut, Ready, Waits;
    ButSized(k, s);
    var sem := k.sems[s];
    if sem.queue != [] {
      var sem' := sem.(queue := sem.queue[1..], count := if countUp then sem.count + 1 else sem.count);
      DequeueReady(k, s, sem');
      DequeueWaits(k, s, sem', p);
      var k1 := Ready(SetSem(k, s, sem'), sem.queue[0]);
      WaitsCurrent(k, k1, p);
      assert Below(k1, sem'.queue, p) by { BelowRest(k, k1, sem.queue, p); }
      ReadyAllWaits(k1, s, countUp, p);
      WaitsThen(k, k1, ReadyAll(k, s, countUp), p);
    } else {
      WaitsSelf(k, p);
    }
  }

  lemma BelowRest(k: Kernel, k1: Kernel, q: seq<Pid>, p: Pid)
    requires Sized(k) && Sized(k1) && IsPid(p) && Waits(k, k1, p) && q != [] && Below(k, q, p)
    ensures Below(k1, q[1..], p)
  {
    assert SamePrio(k, k1, p);
    var t := q[1..];
    forall i | 0 <= i < |t| ensures Prio(k1, t[i]) <= k1.procs[p].prio {
      assert SamePrio(k, k1, q[i + 1]);
    }
  }

  /** The end of a deferral that only made processes ready. */
  lemma StopServes(k0: Kernel, k: Kernel, p: Pid)
    requires Sized(k0) && Inv(k) && k.ndefers == 1 && IsPid(p) && Waits(k0, k, p)
    requires k0.procs[k0.currpid].prio <= k0.procs[p].prio
    ensures Served(k0, DeferStop(k), p)
  {
    hide Placed, ByPriority, NullOK, Resched;
    InvSized(k);
    WaitsCurrent(k0, k, p);
    if k.attempt {
      var k1 := k.(ndefers := 0);
      BaseFrame(k, k1);
      ReschedServes(k1, p);
      ReschedKeeps(k1);
      ReadyInList(Resched(k1), p);
    }
  }

  // ---------- Every call ----------

  /** The call does not take `p` off the ready list by force, and is not itself a deferral. */
  predicate Fair(c: Call, p: Pid) {
    c != CKill(p) && c != CSuspend(p) && !c.CDeferStart? && !c.CDeferStop?
  }

  lemma WokenBelow(k: Kernel, k': Kernel, w: seq<Pid>, p: Pid)
    requires Sized(k) && Sized(k') && IsPid(p) && Wakes(k, k', w) && NoneAbove(k', p) && AllPids(w)
              && k.procs[p].state == READY
    ensures Below(k, w, p)
  {
    assert Woke(k, k', w, p);
    forall i | 0 <= i < |w| ensures Prio(k, w[i]) <= k.procs[p].prio {
      assert w[i] in w;
      assert Woke(k, k', w, w[i]) && NotAbove(k', p, w[i]);
    }
  }

  lemma BlockServes(k: Kernel, k2: Kernel, p: Pid)
    requires Inv(k) && k.ndefers == 0 && IsPid(p) && k.procs[p].state == READY && NoneAbove(k, p)
    requires Base(k2, NOHOLE) && k2.ready == k.ready && k2.currpid == k.currpid && k2.ndefers == 0
    requires k2.procs[p] == k.procs[p] && k2.procs[k.currpid].prio == k.procs[k.currpid].prio
              && k2.procs[k.currpid].state != READY
    ensures Served(k, Resched(k2), p) && Resched(k2).currpid != k.currpid
  {
    hide Inv, Base, Resched, NoneAbove;
    CurrentNotAbove(k, p);
    BaseSized(k2);
    ReschedServes(k2, p);
    ReschedKeeps(k2);
    BaseSized(Resched(k2));
    ReadyInList(Resched(k2), p);
  }

  lemma WaitServes(k: Kernel, s: int, p: Pid)
    requires Inv(k) && Allowed(k, CWait(s)) && k.ndefers == 0 && IsPid(p) && k.procs[p].state == READY
              && NoneAbove(k, p)
    ensures Served(k, Wait(k, s), p) && (Blocks(k, CWait(s)) ==> Wait(k, s).currpid != k.currpid)
  {
    hide Inv, Base, Resched, NoneAbove;
    InvSized(k);
    InvBase(k);
    if GoodSem(k, s) && k.sems[s].count <= 0 {
      var sem := k.sems[s];
      var k1 := SetSem(k, s, sem.(count := sem.count - 1, queue := sem.queue + [k.currpid]));
      var k2 := k1.(procs := k1.procs[k.currpid := k1.procs[k.currpid].(state := WAIT, sem := s)]);
      JoinSem(k, k2, s);
      BlockServes(k, k2, p);
    }
  }

  lemma SleepServes(k: Kernel, delay: int, st: PrState, p: Pid)
    requires Inv(k) && k.currpid != NULLPROC && k.ndefers == 0 && delay >= 0 && Asleep(st)
    requires IsPid(p) && k.procs[p].state == READY && NoneAbove(k, p)
    ensures Served(k, SleepAs(k, delay, st), p) && SleepAs(k, delay, st).currpid != k.currpid
  {
    hide Inv, Base, Resched, NoneAbove;
    InvSized(k);
    InvBase(k);
    JoinSleep(k, delay, st);
    BlockServes(k, SetState(k, k.currpid, st).(sleepq := InsertD(k.sleepq, k.currpid, delay)), p);
  }

  lemma ParkServes(k: Kernel, k1: Kernel, st: PrState, p: Pid)
    requires Inv(k) && k.currpid != NULLPROC && k.ndefers == 0 && (st == SUSP || st == RECV || st == FREE)
    requires k1 == SetState(k, k.currpid, st).(midtick := k1.midtick)
    requires IsPid(p) && k.procs[p].state == READY && NoneAbove(k, p)
    ensures Served(k, Resched(k1), p) && Resched(k1).currpid != k.currpid
  {
    hide Inv, Base, Resched, NoneAbove;
    InvSized(k);
    InvBase(k);
    AsHole(k, k.currpid);
    FillHole(k, k.currpid, st);
    BaseFrame(SetState(k, k.currpid, st), k1);
    BlockServes(k, k1, p);
  }

  lemma YieldServes(k: Kernel, k1: Kernel, p: Pid)
    requires Inv(k) && k.ndefers == 0 && IsPid(p) && k.procs[p].state == READY && NoneAbove(k, p)
    requires k1 == k.(preempt := k1.preempt) && (k1.preempt == k.preempt || k1.preempt >= 1)
    ensures Served(k, Resched(k1), p) && Resched(k1).currpid != k.currpid
  {
    hide Inv, Base, Resched, NoneAbove;
    InvSized(k);
    InvBase(k);
    BaseQueues(k, NOHOLE);
    BaseFrame(k, k1);
    BlockServes(k, k1, p);
  }

  // ---------- Calls that make processes ready ----------

  /** A call that makes `x` ready, once `x` is off its queue, in state `k1`. */
  lemma WakeServes(k: Kernel, k1: Kernel, x: Pid, p: Pid)
    requires Inv(k) && k.ndefers == 0 && IsPid(p) && k.procs[p].state == READY && NoneAbove(k, p)
    requires Base(k1, x) && IsPid(x) && k1.procs == k.procs && k1.ready == k.ready && k1.currpid == k.currpid
              && k1.ndefers == 0
    requires k.procs[x].state in {WAIT, SLEEP, RECTIM, RECV, SUSP}
    requires NoneAbove(Ready(k1, x), p)
    ensures Served(k, Ready(k1, x), p)
  {
    hide Inv, Base, Ready, ByPriority, NullOK, IndexOf;
    InvSized(k);
    InvBase(k);
    CurrentNotAbove(k, p);
    ReadyInList(k, p);
    ReadyRest(k1, x);
    var k2 := Ready(k1, x);
    assert SameProc(SetState(k1, x, READY), k2, x) && SameProc(SetState(k1, x, READY), k2, p);
    assert NotAbove(k2, p, x);
    ReadyServes(k1, x, p);
  }

  lemma SignalServes(k: Kernel, s: int, p: Pid)
    requires Inv(k) && GoodSem(k, s) && k.ndefers == 0 && IsPid(p) && k.procs[p].state == READY && NoneAbove(k, p)
    requires NoneAbove(SignalOne(k, s), p)
    ensures Served(k, SignalOne(k, s), p)
  {
    hide Inv, InvBut, Base, NoneAbove, Ready;
    InvSized(k);
    InvIsBut(k, s);
    var sem := k.sems[s];
    if sem.queue != [] {
      var sem' := sem.(count := sem.count + 1, queue := sem.queue[1..]);
      DequeueHole(k, s, sem');
      WakeServes(k, SetSem(k, s, sem'), sem.queue[0], p);
    }
  }

  lemma ResumeServes(k: Kernel, x: Pid, p: Pid)
    requires Inv(k) && k.ndefers == 0 && IsPid(p) && k.procs[p].state == READY && NoneAbove(k, p)
    requires IsPid(x) && k.procs[x].state in {SUSP, RECV} && NoneAbove(Ready(k, x), p)
    ensures Served(k, Ready(k, x), p)
  {
    hide Inv, Base, NoneAbove, Ready;
    InvSized(k);
    InvBase(k);
    AsHole(k, x);
    WakeServes(k, k, x, p);
  }

  lemma DeliverServes(k: Kernel, x: Pid, p: Pid)
    requires Inv(k) && k.ndefers == 0 && IsPid(p) && k.procs[p].state == READY && NoneAbove(k, p)
    requires NoneAbove(Deliver(k, x), p)
    ensures Served(k, Deliver(k, x), p)
  {
    hide Inv, Base, NoneAbove, Ready;
    InvSized(k);
    if !BadPid(k, x) {
      if k.procs[x].state == RECV {
        ResumeServes(k, x, p);
      } else if k.procs[x].state == RECTIM {
        UnsleepHole(k, x);
        WakeServes(k, k.(sleepq := RemoveD(k.sleepq, x)), x, p);
      }
    }
  }

  lemma QueuePids(k: Kernel, s: int, n: int)
    requires Base(k, NOHOLE) && 0 <= s < NSEM && 0 <= n <= |k.sems[s].queue|
    ensures AllPids(k.sems[s].queue[..n]) && AllPids(k.sems[s].queue)
  {
    hide ByPriority, NullOK;
    BaseQueues(k, NOHOLE);
    var q := k.sems[s].queue;
    var t := q[..n];
    assert QueueOK(q);
    forall i | 0 <= i < |t| ensures IsPid(t[i]) { assert t[i] == q[i]; }
  }

  lemma BelowSame(k: Kernel, k': Kernel, w: seq<Pid>, p: Pid)
    requires Sized(k) && Sized(k') && k'.procs == k.procs && IsPid(p) && Below(k, w, p)
    ensures Below(k', w, p)
  {
    forall i | 0 <= i < |w| ensures Prio(k', w[i]) <= k'.procs[p].prio { }
  }

  lemma WaitsSame(k: Kernel, k': Kernel, p: Pid)
    requires Sized(k) && Sized(k') && IsPid(p) && k.procs[p].state == READY
    requires k'.procs == k.procs && k'.ready == k.ready && k'.currpid == k.currpid
    ensures Waits(k, k', p)
  {
    forall r ensures SamePrio(k, k', r) { }
  }

  lemma SignalNServes(k: Kernel, s: int, n: int, p: Pid)
    requires Inv(k) && GoodSem(k, s) && n >= 0 && k.ndefers == 0 && IsPid(p) && k.procs[p].state == READY
              && NoneAbove(k, p)
    requires NoneAbove(SignalN(k, s, n), p)
    ensures Served(k, SignalN(k, s, n), p)
  {
    hide Inv, Base, NoneAbove, SignalLoop, DeferStop, DeferStart, Wakes, Waits, Below, Served;
    InvSized(k);
    InvBase(k);
    CurrentNotAbove(k, p);
    SignalNWakesFirst(k, s, n);
    var q := k.sems[s].queue;
    QueuePids(k, s, Min(n, |q|));
    WokenBelow(k, SignalN(k, s, n), q[..Min(n, |q|)], p);
    DeferInv(k);
    DeferStarted(k);
    StartSame(k);
    var k1 := DeferStart(k);
    WaitsSame(k, k1, p);
    BelowSame(k, k1, q[..Min(n, |q|)], p);
    SignalLoopWaits(k1, s, n, p);
    SignalLoopKeeps(k1, s, n);
    InvSized(SignalLoop(k1, s, n));
    WaitsThen(k, k1, SignalLoop(k1, s, n), p);
    StopServes(k, SignalLoop(k1, s, n), p);
  }

  lemma SemResetServes(k: Kernel, s: int, count: int, p: Pid)
    requires Inv(k) && GoodSem(k, s) && count >= 0 && k.ndefers == 0 && IsPid(p) && k.procs[p].state == READY
              && NoneAbove(k, p)
    requires NoneAbove(SemReset(k, s, count), p)
    ensures Served(k, SemReset(k, s, count), p)
  {
    hide Inv, InvBut, Base, NoneAbove, ReadyAll, DeferStop, DeferStart, Wakes, Waits, Below, Served;
    InvSized(k);
    InvBase(k);
    CurrentNotAbove(k, p);
    SemResetWakesAll(k, s, count);
    QueuePids(k, s, 0);
    WokenBelow(k, SemReset(k, s, count), k.sems[s].queue, p);
    InvIsBut(k, s);
    DeferStartKeeps(k, s);
    DeferStarted(k);
    StartSame(k);
    var k0 := DeferStart(k);
    WaitsSame(k, k0, p);
    BelowSame(k, k0, k.sems[s].queue, p);
    ReadyAllKeeps(k0, s, false);
    ReadyAllWaits(k0, s, false, p);
    var k1 := ReadyAll(k0, s, false);
    ButSized(k1, s);
    var k2 := SetSem(k1, s, k1.sems[s].(count := count));
    CountKeeps(k1, s, k1.sems[s].(count := count));
    ButIsInv(k2, s);
    WaitsThen(k, k0, k1, p);
    WaitsCurrent(k, k1, p);
    WaitsSame(k1, k2, p);
    WaitsThen(k, k1, k2, p);
    StopServes(k, k2, p);
  }

  lemma SemDeleteServes(k: Kernel, s: int, p: Pid)
    requires Inv(k) && GoodSem(k, s) && k.ndefers == 0 && IsPid(p) && k.procs[p].state == READY && NoneAbove(k, p)
    requires NoneAbove(SemDelete(k, s), p)
    ensures Served(k, SemDelete(k, s), p)
  {
    hide Inv, InvBut, Base, NoneAbove, ReadyAll, DeferStop, DeferStart, Wakes, Waits, Below, Served;
    InvSized(k);
    InvBase(k);
    CurrentNotAbove(k, p);
    SemDeleteWakesAll(k, s);
    QueuePids(k, s, 0);
    WokenBelow(k, SemDelete(k, s), k.sems[s].queue, p);
    InvIsBut(k, s);
    var ku := SetSem(k, s, k.sems[s].(used := false));
    CountKeeps(k, s, k.sems[s].(used := false));
    DeferStartKeeps(ku, s);
    DeferStarted(ku);
    StartSame(ku);
    var k0 := DeferStart(ku);
    WaitsSame(k, k0, p);
    BelowSame(k, k0, k.sems[s].queue, p);
    ReadyAllKeeps(k0, s, true);
    ReadyAllWaits(k0, s, true, p);
    var k1 := ReadyAll(k0, s, true);
    ButSized(k1, s);
    var k2 := SetSem(k1, s, k1.sems[s].(count := k1.sems[s].count + 1));
    CountKeeps(k1, s, k1.sems[s].(count := k1.sems[s].count + 1));
    ButIsInv(k2, s);
    WaitsThen(k, k0, k1, p);
    WaitsCurrent(k, k1, p);
    WaitsSame(k1, k2, p);
    WaitsThen(k, k1, k2, p);
    StopServes(k, k2, p);
  }

  // ---------- A tick ----------

  ghost predicate StaysActive(k: Kernel, k': Kernel, r: Pid)
    requires Sized(k) && Sized(k')
  {
    IsPid(r) ==> k'.procs[r].prio == k.procs[r].prio && (Active(k.procs[r].state) ==> Active(k'.procs[r].state))
  }

  ghost predicate AllStayActive(k: Kernel, k': Kernel)
    requires Sized(k) && Sized(k')
  {
    forall r :: StaysActive(k, k', r)
  }

  lemma ActiveThen(k: Kernel, k1: Kernel, k2: Kernel)
    requires Sized(k) && Sized(k1) && Sized(k2) && AllStayActive(k, k1) && AllStayActive(k1, k2)
    ensures AllStayActive(k, k2)
  {
    forall r ensures StaysActive(k, k2, r) { assert StaysActive(k, k1, r) && StaysActive(k1, k2, r); }
  }

  lemma WakesActive(k: Kernel, k': Kernel)
    requires Sized(k) && Sized(k') && Wakes(k, k', [])
    ensures AllStayActive(k, k')
  {
    forall r ensures StaysActive(k, k', r) { assert Woke(k, k', [], r); }
  }

  lemma NoneAboveBefore(k: Kernel, k': Kernel, p: Pid)
    requires Sized(k) && Sized(k') && IsPid(p) && AllStayActive(k, k') && NoneAbove(k', p)
    ensures NoneAbove(k, p)
  {
    forall q ensures NotAbove(k, p, q) { assert StaysActive(k, k', q) && StaysActive(k, k', p) && NotAbove(k', p, q); }
  }

  lemma WakeOneActive(k: Kernel)
    requires InvTail(k) && k.sleepq != [] && IsPid(k.sleepq[0].pid)
    ensures AllStayActive(k, Ready(k.(sleepq := k.sleepq[1..]), k.sleepq[0].pid))
  {
    hide InvTail, Ready;
    TailSized(k);
    WakeOne(k);
    var k1 := k.(sleepq := k.sleepq[1..]);
    var x := k.sleepq[0].pid;
    forall r ensures StaysActive(k, Ready(k1, x), r) { assert SameProc(SetState(k1, x, READY), Ready(k1, x), r); }
  }

  lemma {:induction false} WakeLoopActive(k: Kernel)
    requires InvTail(k)
    ensures Sized(k) && AllStayActive(k, WakeLoop(k))
    decreases |k.sleepq|
  {
    hide InvTail, Inv, Ready, AllStayActive;
    TailSized(k);
    if k.sleepq != [] && k.sleepq[0].key <= 0 {
      WakeOne(k);
      WakeOneActive(k);
      var k' := Ready(k.(sleepq := k.sleepq[1..]), k.sleepq[0].pid);
      InvIsTail(k');
      WakeLoopActive(k');
      ActiveThen(k, k', WakeLoop(k));
    } else {
      ActiveSelf(k, k);
    }
  }

  lemma ActiveSelf(k: Kernel, k': Kernel)
    requires Sized(k) && Sized(k') && k'.procs == k.procs
    ensures AllStayActive(k, k')
  {
    forall r ensures StaysActive(k, k', r) { }
  }

  /** Waking the first sleeper, deferred. */
  lemma WakeOneWaits(k: Kernel, p: Pid)
    requires InvTail(k) && k.sleepq != [] && k.ndefers > 0 && IsPid(p) && k.procs[p].state == READY
    requires IsPid(k.sleepq[0].pid) && NoneAbove(Ready(k.(sleepq := k.sleepq[1..]), k.sleepq[0].pid), p)
    requires k.procs[k.currpid].prio <= k.procs[p].prio
    ensures Waits(k, Ready(k.(sleepq := k.sleepq[1..]), k.sleepq[0].pid), p)
  {
    hide InvTail, Inv, Base, Ready, ByPriority, NullOK, IndexOf;
    TailSized(k);
    TailBase(k);
    var x := k.sleepq[0].pid;
    var k1 := k.(sleepq := k.sleepq[1..]);
    SleeperHole(k);
    WakeOne(k);
    var k2 := Ready(k1, x);
    ReadyInList(k, p);
    assert SameProc(SetState(k1, x, READY), k2, x) && SameProc(SetState(k1, x, READY), k2, p);
    assert NotAbove(k2, p, x);
    ReadyServes(k1, x, p);
    forall r ensures SamePrio(k, k2, r) { assert SameProc(SetState(k1, x, READY), k2, r); }
  }

  lemma {:induction false} WakeLoopWaits(k: Kernel, p: Pid)
    requires InvTail(k) && k.ndefers > 0 && IsPid(p) && k.procs[p].state == READY
    requires NoneAbove(WakeLoop(k), p) && k.procs[k.currpid].prio <= k.procs[p].prio
    ensures Waits(k, WakeLoop(k), p)
    decreases |k.sleepq|
  {
    hide InvTail, Inv, Ready, Waits, NoneAbove, AllStayActive;
    TailSized(k);
    if k.sleepq != [] && k.sleepq[0].key <= 0 {
      WakeOne(k);
      var k' := Ready(k.(sleepq := k.sleepq[1..]), k.sleepq[0].pid);
      InvIsTail(k');
      WakeLoopActive(k');
      NoneAboveBefore(k', WakeLoop(k), p);
      WakeOneWaits(k, p);
      WaitsCurrent(k, k', p);
      WakeLoopWaits(k', p);
      WaitsThen(k, k', WakeLoop(k), p);
    } else {
      WaitsSelf(k, p);
    }
  }

  lemma TickSleepersServes(k: Kernel, p: Pid)
    requires Inv(k) && k.ndefers == 0 && IsPid(p) && k.procs[p].state == READY && NoneAbove(k, p)
    requires NoneAbove(TickSleepers(k), p)
    ensures Served(k, TickSleepers(k), p)
  {
    hide Inv, InvTail, NoneAbove, WakeLoop, DeferStop, DeferStart, Waits, Wakes, AllStayActive;
    InvSized(k);
    CurrentNotAbove(k, p);
    if k.sleepq != [] {
      Decremented(k);
      var k1 := k.(sleepq := [k.sleepq[0].(key := k.sleepq[0].key - 1)] + k.sleepq[1..]);
      if k1.sleepq[0].key <= 0 {
        DeferTail(k1);
        DeferStarted(k1);
        StartSame(k1);
        var k2 := DeferStart(k1);
        WaitsSame(k, k2, p);
        WakeLoopKeeps(k2);
        var k3 := WakeLoop(k2);
        InvSized(k3);
        StopRest(k3);
        WakesActive(k3, DeferStop(k3));
        NoneAboveBefore(k3, DeferStop(k3), p);
        WakeLoopWaits(k2, p);
        WaitsThen(k, k2, k3, p);
        StopServes(k, k3, p);
      }
    }
  }

  lemma TickServes(k: Kernel, p: Pid)
    requires Inv(k) && k.ndefers == 0 && IsPid(p) && k.procs[p].state == READY && NoneAbove(k, p)
    requires NoneAbove(Tick(k), p)
    ensures Served(k, Tick(k), p) && (k.preempt <= 1 ==> Tick(k).currpid != k.currpid)
  {
    hide Inv, NoneAbove, TickSleepers, AllStayActive, Wakes, Resched;
    InvSized(k);
    TickSleepersKeeps(k);
    var k1 := TickSleepers(k);
    InvSized(k1);
    TickActive(k);
    NoneAboveBefore(k1, Tick(k), p);
    TickSleepersServes(k, p);
    SleepersSlice(k);
    if k1.currpid == k.currpid && k1.preempt - 1 <= 0 {
      CurrIsNotReady(k, p);
      YieldServes(k1, k1.(preempt := QUANTUM), p);
    }
  }

  lemma CurrIsNotReady(k: Kernel, p: Pid)
    requires Inv(k) && IsPid(p) && k.procs[p].state == READY
    ensures p != k.currpid
  {
  }

  /** What follows the service of the sleep queue in a tick only reschedules. */
  lemma TickActive(k: Kernel)
    requires Inv(k)
    ensures Sized(TickSleepers(k)) && AllStayActive(TickSleepers(k), Tick(k))
  {
    hide Inv, TickSleepers, AllStayActive, Wakes, Resched, Base;
    InvSized(k);
    TickSleepersKeeps(k);
    var k1 := TickSleepers(k);
    InvSized(k1);
    InvBase(k1);
    if k1.currpid == k.currpid && k1.preempt - 1 <= 0 {
      var k2 := k1.(preempt := QUANTUM);
      BaseFrame(k1, k2);
      ReschedRest(k2);
      WakesNone(k2, Resched(k2));
      WakesActive(k2, Resched(k2));
      ActiveSelf(k1, k2);
      ActiveThen(k1, k2, Resched(k2));
    } else {
      ActiveSelf(k1, Tick(k));
    }
  }

  // ---------- A process leaving the ready list ----------

  lemma UnreadyServes(k: Kernel, k': Kernel, x: Pid, p: Pid)
    requires Inv(k) && IsPid(p) && k.procs[p].state == READY && IsPid(x) && x != p
    requires Sized(k') && k'.ready == Without(k.ready, x) && k'.currpid == k.currpid && k'.procs[p] == k.procs[p]
    ensures Served(k, k', p)
  {
    hide Base, IndexOf, Without;
    InvBase(k);
    ReadyInList(k, p);
    IndexWithout(k.ready, x, p);
  }

  lemma SuspendServes(k: Kernel, x: Pid, p: Pid)
    requires Inv(k) && Allowed(k, CSuspend(x)) && k.ndefers == 0 && IsPid(p) && k.procs[p].state == READY
              && NoneAbove(k, p) && x != p
    ensures Served(k, Suspend(k, x), p) && (Blocks(k, CSuspend(x)) ==> Suspend(k, x).currpid != k.currpid)
  {
    hide Inv, NoneAbove, Resched, Rank, Without;
    InvSized(k);
    if !BadPid(k, x) && x != NULLPROC {
      if k.procs[x].state == READY {
        CurrIsNotReady(k, x);
        UnreadyServes(k, Suspend(k, x), x, p);
      } else if k.procs[x].state == CURR {
        CurrIsCurrent(k, x);
        ParkServes(k, SetState(k, x, SUSP), SUSP, p);
      }
    }
  }

  lemma KillServes(k: Kernel, x: Pid, p: Pid)
    requires Inv(k) && Allowed(k, CKill(x)) && k.ndefers == 0 && IsPid(p) && k.procs[p].state == READY
              && NoneAbove(k, p) && x != p
    ensures Served(k, Kill(k, x), p) && (Blocks(k, CKill(x)) ==> Kill(k, x).currpid != k.currpid)
  {
    hide Inv, NoneAbove, Resched, Rank, Without, RemoveD;
    InvSized(k);
    if !BadPid(k, x) && x != NULLPROC {
      if k.procs[x].state == READY {
        CurrIsNotReady(k, x);
        UnreadyServes(k, Kill(k, x), x, p);
      } else if k.procs[x].state == CURR {
        CurrIsCurrent(k, x);
        ParkServes(k, SetState(k, x, FREE).(midtick := k.midtick - {x}), FREE, p);
      } else {
        NotCurrent(k, x);
        ServedSelf(k, Kill(k, x), p);
      }
    } else {
      ServedSelf(k, k, p);
    }
  }

  lemma NotCurrent(k: Kernel, x: Pid)
    requires Inv(k) && IsPid(x) && k.procs[x].state != CURR
    ensures x != k.currpid
  {
  }

  // ---------- Every call, every run ----------

  /** Whatever the call, a ready process that nobody active exceeds in priority keeps its place in the ready
      list, and moves up when the processor changes hands. */
  lemma StepServes(k: Kernel, c: Call, p: Pid)
    requires Inv(k) && Allowed(k, c) && Fair(c, p) && k.ndefers == 0 && IsPid(p) && k.procs[p].state == READY
    requires NoneAbove(k, p) && NoneAbove(Step(k, c), p)
    ensures Served(k, Step(k, c), p)
  {
    hide Inv, NoneAbove, Served, Resched, Ready, DeferStart, DeferStop, SignalN, SemCreate, SemDelete, SemReset,
        SleepAs, Suspend, Kill, Create, Deliver, Tick, Wait, SignalOne;
    InvSized(k);
    match c
    case CWait(s) => WaitServes(k, s, p);
    case CSignal(s) => if GoodSem(k, s) { SignalServes(k, s, p); } else { ServedSelf(k, k, p); }
    case CSignalN(s, n) =>
      if GoodSem(k, s) && n >= 0 {
        SignalNServes(k, s, n, p);
      } else {
        SignalNFails(k, s, n);
        ServedSelf(k, k, p);
      }
    case CSemCreate(n) => SemCreateSame(k, n); ServedSelf(k, SemCreate(k, n), p);
    case CSemDelete(s) =>
      if GoodSem(k, s) {
        SemDeleteServes(k, s, p);
      } else {
        SemDeleteFails(k, s);
        ServedSelf(k, k, p);
      }
    case CSemReset(s, n) =>
      if GoodSem(k, s) && n >= 0 {
        SemResetServes(k, s, n, p);
      } else {
        SemResetFails(k, s, n);
        ServedSelf(k, k, p);
      }
    case CSleep(d) =>
      if d == 0 {
        YieldServes(k, k, p);
      } else if d > 0 {
        SleepServes(k, d, SLEEP, p);
      } else {
        ServedSelf(k, k, p);
      }
    case CRecvTime(d) => if d >= 0 { SleepServes(k, d, RECTIM, p); } else { ServedSelf(k, k, p); }
    case CReceive => ParkServes(k, SetState(k, k.currpid, RECV), RECV, p);
    case CDeliver(x) => DeliverServes(k, x, p);
    case CYield => YieldServes(k, k, p);
    case CSuspend(x) => SuspendServes(k, x, p);
    case CResume(x) =>
      if !BadPid(k, x) && k.procs[x].state == SUSP {
        ResumeServes(k, x, p);
      } else {
        ServedSelf(k, k, p);
      }
    case CKill(x) => KillServes(k, x, p);
    case CCreate(x, prio) => CreateSame(k, x, prio, p); ServedSelf(k, Create(k, x, prio), p);
    case CTick => TickServes(k, p);
    case CDeferStart =>
    case CDeferStop =>
  }

  lemma ServedSelf(k: Kernel, k': Kernel, p: Pid)
    requires Sized(k) && Sized(k') && IsPid(p) && k.procs[p].state == READY && k'.procs[p] == k.procs[p]
    requires k'.ready == k.ready && k'.currpid == k.currpid
    ensures Served(k, k', p)
  {
  }

  lemma SignalNFails(k: Kernel, s: int, n: int)
    requires Sized(k) && (!GoodSem(k, s) || n < 0)
    ensures SignalN(k, s, n) == k
  {
  }

  lemma SemDeleteFails(k: Kernel, s: int)
    requires Sized(k) && !GoodSem(k, s)
    ensures SemDelete(k, s) == k
  {
  }

  lemma SemResetFails(k: Kernel, s: int, n: int)
    requires Sized(k) && (!GoodSem(k, s) || n < 0)
    ensures SemReset(k, s, n) == k
  {
  }

  lemma SemCreateSame(k: Kernel, n: int)
    requires Sized(k)
    ensures
      var k' := SemCreate(k, n);
      k'.procs == k.procs && k'.ready == k.ready && k'.currpid == k.currpid && k'.ndefers == k.ndefers && Sized(k')
  {
  }

  lemma CreateSame(k: Kernel, x: Pid, prio: int, p: Pid)
    requires Sized(k) && IsPid(p) && k.procs[p].state == READY
    ensures
      var k' := Create(k, x, prio);
      k'.procs[p] == k.procs[p] && k'.ready == k.ready && k'.currpid == k.currpid && k'.ndefers == k.ndefers
          && Sized(k')
  {
  }

  /** The call takes the processor from the current process if another of its priority is ready: it blocks,
      yields, or is the tick that ends the time slice. */
  predicate GivesUp(k: Kernel, c: Call)
    requires Sized(k)
  {
    Blocks(k, c) || c == CYield || c == CSleep(0) || (c == CTick && k.preempt <= 1)
  }

  lemma GivesUpChanges(k: Kernel, c: Call, p: Pid)
    requires Inv(k) && Allowed(k, c) && Fair(c, p) && k.ndefers == 0 && IsPid(p) && k.procs[p].state == READY
    requires NoneAbove(k, p) && NoneAbove(Step(k, c), p) && GivesUp(k, c)
    ensures Step(k, c).currpid != k.currpid
  {
    hide Inv, NoneAbove, Served, Resched, SleepAs, Suspend, Kill, Tick, Wait;
    InvSized(k);
    match c
    case CWait(s) => WaitServes(k, s, p);
    case CSleep(d) => if d == 0 { YieldServes(k, k, p); } else { SleepServes(k, d, SLEEP, p); }
    case CRecvTime(d) => SleepServes(k, d, RECTIM, p);
    case CReceive => ParkServes(k, SetState(k, k.currpid, RECV), RECV, p);
    case CYield => YieldServes(k, k, p);
    case CSuspend(x) => SuspendServes(k, x, p);
    case CKill(x) => KillServes(k, x, p);
    case CTick => TickServes(k, p);
    case _ =>
  }

  /** A run without deferrals in which nothing of a higher priority than `p` becomes active, and nobody
      suspends or kills `p`. */
  ghost predicate Calm(k: Kernel, cs: seq<Call>, p: Pid)
    requires Path(k, cs) && Sized(k) && IsPid(p)
    decreases |cs|
  {
    NoneAbove(k, p) && (cs != [] ==> Fair(cs[0], p) && Sized(Step(k, cs[0])) && Calm(Step(k, cs[0]), cs[1..], p))
  }

  /** The number of calls of the run at which the current process gives up the processor. */
  function Turns(k: Kernel, cs: seq<Call>): nat
    requires Path(k, cs)
    decreases |cs|
  {
    if cs == [] then 0 else (if GivesUp(k, cs[0]) then 1 else 0) + Turns(Step(k, cs[0]), cs[1..])
  }

  /** `p` is the current process at some point of the run. */
  predicate Runs(k: Kernel, cs: seq<Call>, p: Pid)
    requires Path(k, cs)
    decreases |cs|
  {
    k.currpid == p || (cs != [] && Runs(Step(k, cs[0]), cs[1..], p))
  }

  /** Round robin: a ready process with `n` processes ahead of it in the ready list runs by the time the
      processor has been given up `n + 1` times, if nothing more urgent turns up. */
  lemma {:induction false} RoundRobin(k: Kernel, cs: seq<Call>, p: Pid)
    requires Inv(k) && Path(k, cs) && IsPid(p) && k.ndefers == 0 && k.procs[p].state == READY && Calm(k, cs, p)
    requires Turns(k, cs) > Rank(k, p)
    ensures Runs(k, cs, p)
    decreases |cs|
  {
    hide Inv, NoneAbove, Step, Rank, GivesUp;
    InvSized(k);
    var k' := Step(k, cs[0]);
    CalmStart(k', cs[1..], p);
    StepServes(k, cs[0], p);
    StepDefers(k, cs[0]);
    StepKeeps(k, cs[0]);
    if GivesUp(k, cs[0]) { GivesUpChanges(k, cs[0], p); }
    if k'.currpid != p {
      RoundRobin(k', cs[1..], p);
    } else {
      assert Runs(k', cs[1..], p);
    }
  }

  lemma CalmStart(k: Kernel, cs: seq<Call>, p: Pid)
    requires Path(k, cs) && Sized(k) && IsPid(p) && Calm(k, cs, p)
    ensures NoneAbove(k, p)
  {
  }

  // ---------- Ticks ----------

  /** In every reachable state the current process has at least one tick and at most a whole slice left. */
  lemma {:induction false} SliceBounds(k: Kernel, cs: seq<Call>)
    requires Inv(k) && Path(k, cs) && k.preempt <= QUANTUM
    ensures 1 <= Run(k, cs).preempt <= QUANTUM
    decreases |cs|
  {
    hide Inv, Step;
    if cs == [] {
      InvBase(k);
      HasTick(k);
    } else {
      SliceAfter(k, cs[0]);
      StepKeeps(k, cs[0]);
      SliceBounds(Step(k, cs[0]), cs[1..]);
    }
  }

  /** The current process changes at some point of the run. */
  predicate Switches(k: Kernel, cs: seq<Call>)
    requires Path(k, cs)
    decreases |cs|
  {
    cs != [] && (Step(k, cs[0]).currpid != k.currpid || Switches(Step(k, cs[0]), cs[1..]))
  }

  /** One call of a calm run that leaves the processor where it is: the slice has lost its tick, if it was one. */
  lemma StepCalm(k: Kernel, cs: seq<Call>, p: Pid)
    requires Inv(k) && Path(k, cs) && cs != [] && IsPid(p) && k.ndefers == 0 && k.procs[p].state == READY
              && Calm(k, cs, p)
    ensures
      var k' := Step(k, cs[0]);
      && Inv(k') && k'.ndefers == 0 && Path(k', cs[1..]) && Calm(k', cs[1..], p) && Served(k, k', p)
      && k.preempt >= 1
      && (k'.currpid == k.currpid ==> k'.preempt == k.preempt - if cs[0] == CTick then 1 else 0)
      && k'.preempt <= if k'.currpid == k.currpid then k.preempt else QUANTUM
  {
    hide Inv, NoneAbove, Step, Rank, Base, Served;
    InvSized(k);
    InvBase(k);
    HasTick(k);
    var k' := Step(k, cs[0]);
    CalmStart(k', cs[1..], p);
    StepServes(k, cs[0], p);
    StepDefers(k, cs[0]);
    StepKeeps(k, cs[0]);
    SliceAfter(k, cs[0]);
    if GivesUp(k, cs[0]) { GivesUpChanges(k, cs[0], p); }
  }

  /** A slice ends: if a process that nothing active is above is ready, the current process loses the processor by
      the time its remaining ticks have come. */
  lemma {:induction false} SliceEnds(k: Kernel, cs: seq<Call>, p: Pid)
    requires Inv(k) && Path(k, cs) && IsPid(p) && k.ndefers == 0 && k.procs[p].state == READY && Calm(k, cs, p)
    requires Ticks(cs) >= k.preempt
    ensures Switches(k, cs)
    decreases |cs|
  {
    hide Inv, Base, Calm, Step, Rank;
    InvSized(k);
    if cs == [] {
      InvBase(k);
      HasTick(k);
    } else {
      StepCalm(k, cs, p);
      var k' := Step(k, cs[0]);
      InvSized(k');
      if k'.currpid == k.currpid { SliceEnds(k', cs[1..], p); }
    }
  }

  /** Round robin in ticks: a ready process with `n` processes ahead of it runs by the time what is left of the
      current slice and `n` whole slices have passed, if nothing more urgent turns up. */
  lemma {:induction false} RoundRobinTicks(k: Kernel, cs: seq<Call>, p: Pid)
    requires Inv(k) && Path(k, cs) && IsPid(p) && k.ndefers == 0 && k.procs[p].state == READY && Calm(k, cs, p)
    requires Ticks(cs) >= k.preempt + Rank(k, p) * QUANTUM
    ensures Runs(k, cs, p)
    decreases |cs|
  {
    hide Inv, Base, Calm, Step, Rank;
    InvSized(k);
    if cs == [] {
      InvBase(k);
      HasTick(k);
    } else {
      StepCalm(k, cs, p);
      var k' := Step(k, cs[0]);
      InvSized(k');
      if k'.currpid == p {
        assert Runs(k', cs[1..], p);
      } else {
        RoundRobinTicks(k', cs[1..], p);
      }
    }
  }
}
