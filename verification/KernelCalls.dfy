/** The calls of the kernel as they change the process table, the semaphore table and queuetab, each against the
    step of `KernelState` that it implements. */
module KernelCalls {
  import opened KernelState
  import opened KernelSafety
  import opened KernelSlices
  import opened KernelEffects
  import opened QueueTables
  import opened Sequences

  /** struct sentry */
  datatype SemEntry = SemEntry(used: bool, count: int, squeue: int)

  /** The numbers of the queues, in the order in which newqueue makes them: one for each semaphore, the ready list,
      the sleep queue. */
  const READYQ := NSEM
  const SLEEPQ := NSEM + 1

  ghost predicate SemAt(lists: seq<seq<Pid>>, sems: seq<SemEntry>, k: Kernel, s: int)
    requires 0 <= s < NSEM && |lists| == NSEM + 2 && |sems| == NSEM && Sized(k)
  {
    lists[s] == k.sems[s].queue && sems[s] == SemEntry(k.sems[s].used, k.sems[s].count, Head(s))
  }

  ghost predicate KeyAt(t: seq<QEntry>, k: Kernel, i: int)
    requires |t| == NQENT && Sized(k) && 0 <= i < |k.ready|
  {
    IsPid(k.ready[i]) && t[k.ready[i]].qkey == k.procs[k.ready[i]].prio
  }

  /** The tables hold the kernel state `k`. */
  ghost predicate Rep(t: seq<QEntry>, lists: seq<seq<Pid>>, procs: seq<Proc>, sems: seq<SemEntry>, k: Kernel) {
    && Sized(k) && |t| == NQENT && |lists| == NSEM + 2 && |sems| == NSEM
    && procs == k.procs
    && lists[READYQ] == k.ready
    && lists[SLEEPQ] == Pids(k.sleepq) && Sleepers(t, lists[SLEEPQ]) == k.sleepq
    && (forall i :: 0 <= i < |k.ready| ==> KeyAt(t, k, i))
    && (forall s :: 0 <= s < NSEM ==> SemAt(lists, sems, k, s))
  }

  // ---------- Edits of the tables ----------

  /** A process that is nowhere in the kernel state is on no queue of the table. */
  lemma NowhereUnlisted(t: seq<QEntry>, lists: seq<seq<Pid>>, procs: seq<Proc>, sems: seq<SemEntry>, k: Kernel, p: Pid)
    requires Rep(t, lists, procs, sems, k) && Nowhere(k, p)
    ensures Unlisted(lists, p)
  {
    forall j | 0 <= j < |lists| ensures p !in lists[j] {
      if j < NSEM { assert SemAt(lists, sems, k, j) && WaitsNot(k, p, j); }
    }
  }

  /** The position that insert finds is the one that the priorities say. */
  lemma {:induction false} KeyPosPrio(t: seq<QEntry>, k: Kernel, l: seq<Pid>, key: int)
    requires |t| == NQENT && Sized(k) && forall i :: 0 <= i < |l| ==> IsPid(l[i]) && t[l[i]].qkey == k.procs[l[i]].prio
    ensures KeyPos(t, l, key) == InsertPos(k, l, key)
  {
    if l != [] { KeyPosPrio(t, k, l[1..], key); }
  }

  lemma ReadyKeys(t: seq<QEntry>, lists: seq<seq<Pid>>, procs: seq<Proc>, sems: seq<SemEntry>, k: Kernel, p: Pid,
                  key: int)
    requires Rep(t, lists, procs, sems, k) && IsPid(p)
    ensures KeyPos(t, lists[READYQ], key) == InsertPos(SetState(k, p, READY), k.ready, key)
  {
    var k1 := SetState(k, p, READY);
    forall i | 0 <= i < |k.ready| ensures IsPid(k.ready[i]) && t[k.ready[i]].qkey == k1.procs[k.ready[i]].prio {
      assert KeyAt(t, k, i);
    }
    KeyPosPrio(t, k1, k.ready, key);
  }

  /** Entering the ready list. */
  lemma RepInsert(t: seq<QEntry>, lists: seq<seq<Pid>>, procs: seq<Proc>, sems: seq<SemEntry>, k: Kernel, p: Pid,
                  t': seq<QEntry>)
    requires Rep(t, lists, procs, sems, k) && Nowhere(k, p) && IsPid(p) && KeysBut(t, t', p) && |t'| == NQENT
    requires t'[p].qkey == k.procs[p].prio
    ensures
      var k' := Insert(SetState(k, p, READY), p);
      Rep(t', lists[READYQ := InsertAt(lists[READYQ], InsertPos(SetState(k, p, READY), k.ready, k.procs[p].prio), p)],
          procs[p := procs[p].(state := READY)], sems, k')
  {
    var i := InsertPos(SetState(k, p, READY), k.ready, k.procs[p].prio);
    var k' := Insert(SetState(k, p, READY), p);
    var lists' := lists[READYQ := InsertAt(lists[READYQ], i, p)];
    SleepersKept(t, t', lists[SLEEPQ], p);
    forall n | 0 <= n < |k'.ready| ensures KeyAt(t', k', n) {
      if n != i {
        var o := if n < i then n else n - 1;
        assert k'.ready[n] == k.ready[o];
        assert KeyAt(t, k, o) && k.ready[o] in k.ready;
        assert KeyKept(t, t', k.ready[o]);
      }
    }
    forall s | 0 <= s < NSEM ensures SemAt(lists', sems, k', s) { assert SemAt(lists, sems, k, s); }
  }

  lemma SleepersKept(t: seq<QEntry>, t': seq<QEntry>, l: seq<Pid>, p: int)
    requires |t| == NQENT == |t'| && KeysBut(t, t', p) && p !in l
    ensures Sleepers(t', l) == Sleepers(t, l)
  {
    forall i | 0 <= i < |l| ensures Sleepers(t', l)[i] == Sleepers(t, l)[i] {
      assert l[i] in l;
      assert KeyKept(t, t', l[i]);
    }
  }

  /** A change that touches only keys of processes that are nowhere, scalars of the kernel, and states. */
  lemma RepFrame(t: seq<QEntry>, t': seq<QEntry>, lists: seq<seq<Pid>>, procs: seq<Proc>, sems: seq<SemEntry>,
                 k: Kernel, k': Kernel, procs': seq<Proc>)
    requires Rep(t, lists, procs, sems, k) && KeysBut(t, t', EMPTY) && Sized(k') && procs' == k'.procs
    requires k'.ready == k.ready && k'.sleepq == k.sleepq && k'.sems == k.sems
    requires forall p :: IsPid(p) ==> k'.procs[p].prio == k.procs[p].prio
    ensures Rep(t', lists, procs', sems, k')
  {
    assert QueueIds(lists[SLEEPQ], k.sleepq);
    forall i | 0 <= i < |k.sleepq| ensures Sleepers(t', lists[SLEEPQ])[i] == k.sleepq[i] {
      assert Sleepers(t, lists[SLEEPQ])[i] == k.sleepq[i];
      assert KeyKept(t, t', lists[SLEEPQ][i]);
    }
    forall n | 0 <= n < |k'.ready| ensures KeyAt(t', k', n) {
      assert KeyAt(t, k, n);
      assert KeyKept(t, t', k.ready[n]);
    }
    forall s | 0 <= s < NSEM ensures SemAt(lists, sems, k', s) { assert SemAt(lists, sems, k, s); }
  }

  ghost predicate QueueIds(l: seq<Pid>, q: seq<Sleeper>) {
    |l| == |q|
  }

  /** Leaving the ready list, from position `i`. */
  lemma RepReadyDrop(t: seq<QEntry>, t': seq<QEntry>, lists: seq<seq<Pid>>, procs: seq<Proc>, sems: seq<SemEntry>,
                     k: Kernel, k': Kernel, i: int)
    requires Rep(t, lists, procs, sems, k) && KeysBut(t, t', EMPTY) && 0 <= i < |k.ready|
    requires k' == k.(ready := Drop(k.ready, i))
    ensures Rep(t', lists[READYQ := Drop(lists[READYQ], i)], procs, sems, k')
  {
    RepFrame(t, t', lists, procs, sems, k, k, procs);
    var lists' := lists[READYQ := Drop(lists[READYQ], i)];
    forall n | 0 <= n < |k'.ready| ensures KeyAt(t', k', n) { assert KeyAt(t', k, if n < i then n else n + 1); }
    forall s | 0 <= s < NSEM ensures SemAt(lists', sems, k', s) { assert SemAt(lists, sems, k, s); }
  }

  /** A change to one semaphore and its queue. */
  lemma RepSem(t: seq<QEntry>, t': seq<QEntry>, lists: seq<seq<Pid>>, procs: seq<Proc>, sems: seq<SemEntry>, k: Kernel,
               s: int, sem: Sem)
    requires Rep(t, lists, procs, sems, k) && KeysBut(t, t', EMPTY) && 0 <= s < NSEM
    ensures Rep(t', lists[s := sem.queue], procs, sems[s := SemEntry(sem.used, sem.count, Head(s))], SetSem(k, s, sem))
  {
    RepFrame(t, t', lists, procs, sems, k, k, procs);
    var k' := SetSem(k, s, sem);
    var lists' := lists[s := sem.queue];
    var sems' := sems[s := SemEntry(sem.used, sem.count, Head(s))];
    forall n | 0 <= n < |k'.ready| ensures KeyAt(t', k', n) { assert KeyAt(t', k, n); }
    forall r | 0 <= r < NSEM ensures SemAt(lists', sems', k', r) { assert SemAt(lists, sems, k, r); }
  }

  /** A change to the sleep queue. */
  lemma RepSleep(t: seq<QEntry>, t': seq<QEntry>, lists: seq<seq<Pid>>, procs: seq<Proc>, sems: seq<SemEntry>,
                 k: Kernel, l: seq<Pid>)
    requires Rep(t, lists, procs, sems, k) && |t'| == NQENT
    requires forall i :: 0 <= i < |k.ready| ==> KeyKept(t, t', k.ready[i])
    requires Pids(Sleepers(t', l)) == l
    ensures Rep(t', lists[SLEEPQ := l], procs, sems, k.(sleepq := Sleepers(t', l)))
  {
    var k' := k.(sleepq := Sleepers(t', l));
    var lists' := lists[SLEEPQ := l];
    forall n | 0 <= n < |k'.ready| ensures KeyAt(t', k', n) {
      assert KeyAt(t, k, n);
      assert KeyKept(t, t', k.ready[n]);
    }
    forall r | 0 <= r < NSEM ensures SemAt(lists', sems, k', r) { assert SemAt(lists, sems, k, r); }
  }

  lemma SleepersPids(t: seq<QEntry>, l: seq<Pid>)
    requires |t| == NQENT
    ensures Pids(Sleepers(t, l)) == l
  {
  }

  lemma RepSized(t: seq<QEntry>, lists: seq<seq<Pid>>, procs: seq<Proc>, sems: seq<SemEntry>, k: Kernel)
    requires Rep(t, lists, procs, sems, k)
    ensures Sized(k) && |t| == NQENT && |lists| == NSEM + 2 && |sems| == NSEM && procs == k.procs
              && lists[READYQ] == k.ready
    ensures forall s :: 0 <= s < NSEM ==>
              lists[s] == k.sems[s].queue && sems[s] == SemEntry(k.sems[s].used, k.sems[s].count, Head(s))
    ensures lists[SLEEPQ] == Pids(k.sleepq) && |lists[SLEEPQ]| == |k.sleepq|
    ensures forall i :: 0 <= i < |k.ready| ==> IsPid(k.ready[i]) && t[k.ready[i]].qkey == k.procs[k.ready[i]].prio
  {
    forall s | 0 <= s < NSEM
      ensures lists[s] == k.sems[s].queue && sems[s] == SemEntry(k.sems[s].used, k.sems[s].count, Head(s))
    {
      assert SemAt(lists, sems, k, s);
    }
    forall i | 0 <= i < |k.ready| ensures IsPid(k.ready[i]) && t[k.ready[i]].qkey == k.procs[k.ready[i]].prio {
      assert KeyAt(t, k, i);
    }
  }

  class Machine {
    const q: QueueTable
    const proctab: array<Proc>
    const semtab: array<SemEntry>
    const readylist: int
    const sleepq: int
    var currpid: int
    var ndefers: int
    var attempt: bool
    var preempt: int
    /** The static variable of newsem. */
    var nextsem: int
    /** The processes that will go on in the middle of clkhandler. */
    var midtick: set<Pid>
    ghost var k: Kernel

    ghost predicate Matches()
      reads this, q, q.queuetab, proctab, semtab
    {
      && q.Valid() && q.proctab == proctab && proctab.Length == NPROC && semtab.Length == NSEM
      && readylist == Head(READYQ) && sleepq == Head(SLEEPQ)
      && Rep(q.queuetab[..], q.lists, proctab[..], semtab[..], k)
      && currpid == k.currpid && ndefers == k.ndefers && attempt == k.attempt && preempt == k.preempt
      && nextsem == k.nextsem && midtick == k.midtick
    }

    ghost predicate Valid()
      reads this, q, q.queuetab, proctab, semtab
    {
      Matches() && Inv(k)
    }

    /** sysinit (initialize.c:189-234) and clkinit: all queues are empty and the null process runs. */
    constructor ()
      ensures Valid() && k == Boot()
      ensures fresh(q) && fresh(q.queuetab) && fresh(proctab) && fresh(semtab)
    {
      hide TableOK, Inv;
      var pt := new Proc[NPROC](i => if i == NULLPROC then Proc(CURR, 0, -1) else Proc(FREE, 0, -1));
      var st := new SemEntry[NSEM](_ => SemEntry(false, 0, 0));
      var qt := new QueueTable(pt);
      ghost var procs := pt[..];
      assert procs == Boot().procs;
      for i := 0 to NSEM
        invariant pt[..] == procs && qt.Valid() && qt.proctab == pt && fresh(qt) && fresh(qt.queuetab)
        invariant |qt.lists| == i && forall j :: 0 <= j < i ==>
                    qt.lists[j] == [] && st[j] == SemEntry(false, 0, Head(j))
      {
        var squeue := qt.NewQueue();
        st[i] := SemEntry(false, 0, squeue);
      }
      var rl := qt.NewQueue();
      var sl := qt.NewQueue();
      q, proctab, semtab, readylist, sleepq := qt, pt, st, rl, sl;
      currpid, ndefers, attempt, preempt, nextsem, midtick := NULLPROC, 0, false, QUANTUM, 0, {};
      k := Boot();
      BootInv();
      new;
      TableSize(q.queuetab[..], q.lists);
      BootRep(q.queuetab[..], q.lists, proctab[..], semtab[..]);
    }

    // ---------- Scheduling ----------

    /** `prstate = PR_READY; insert(pid, readylist, prprio)` of ready and resched. */
    method EnterReady(pid: Pid)
      requires Matches() && IsPid(pid) && Nowhere(k, pid) && k.procs[pid].prio > MINKEY
      modifies this`k, q, q.queuetab, proctab
      ensures Matches() && k == Insert(SetState(old(k), pid, READY), pid)
    {
      hide Rep, Nowhere, Insert, InsertPos;
      NowhereUnlisted(q.queuetab[..], q.lists, proctab[..], semtab[..], k, pid);
      RepSized(q.queuetab[..], q.lists, proctab[..], semtab[..], k);
      ReadyKeys(q.queuetab[..], q.lists, proctab[..], semtab[..], k, pid, k.procs[pid].prio);
      proctab[pid] := proctab[pid].(state := READY);
      assert proctab[..] == old(proctab[..])[pid := old(proctab[pid]).(state := READY)];
      var _ := q.Insert(pid, readylist, proctab[pid].prio);
      RepInsert(old(q.queuetab[..]), old(q.lists), old(proctab[..]), semtab[..], k, pid, q.queuetab[..]);
      InsertScalars(k, pid);
      k := Insert(SetState(k, pid, READY), pid);
    }

    /** `dequeue(readylist)` of resched. */
    method PopReady() returns (pid: Pid)
      requires Matches() && k.ready != []
      modifies this`k, q, q.queuetab
      ensures Matches() && pid == old(k).ready[0] && IsPid(pid) && k == old(k).(ready := old(k).ready[1..])
    {
      hide Rep, Drop;
      RepSized(q.queuetab[..], q.lists, proctab[..], semtab[..], k);
      pid := q.Dequeue(readylist);
      DropFirst(k.ready);
      RepReadyDrop(old(q.queuetab[..]), q.queuetab[..], old(q.lists), proctab[..], semtab[..], k,
          k.(ready := k.ready[1..]), 0);
      k := k.(ready := k.ready[1..]);
    }

    /** A change of state alone. */
    method SetProc(pid: Pid, st: PrState)
      requires Matches() && IsPid(pid)
      modifies this`k, proctab
      ensures Matches() && k == SetState(old(k), pid, st)
    {
      hide Rep;
      RepSized(q.queuetab[..], q.lists, proctab[..], semtab[..], k);
      proctab[pid] := proctab[pid].(state := st);
      KeysSelf(q.queuetab[..]);
      assert proctab[..] == SetState(k, pid, st).procs;
      RepFrame(q.queuetab[..], q.queuetab[..], q.lists, old(proctab[..]), semtab[..], k, SetState(k, pid, st),
          proctab[..]);
      k := SetState(k, pid, st);
    }

    /** resched.c:40-44, and what the process that gets the processor goes on with if it is in clkhandler. */
    method Switch()
      requires Matches() && k.ready != []
      modifies this`k, this`currpid, this`preempt, this`midtick, q, q.queuetab, proctab
      ensures Matches() && k == Dispatch(old(k))
    {
      hide Rep;
      RepSized(q.queuetab[..], q.lists, proctab[..], semtab[..], k);
      var next := PopReady();
      SetProc(next, CURR);
      ghost var k1 := k;
      currpid := next;
      preempt := QUANTUM;
      if currpid in midtick {
        midtick := midtick - {currpid};
        preempt := preempt - 1;
      }
      MidtickNot(old(midtick), currpid);
      k := k1.(currpid := currpid, preempt := preempt, midtick := midtick);
      RepSized(q.queuetab[..], q.lists, proctab[..], semtab[..], k1);
      RepScalars(q.queuetab[..], q.lists, proctab[..], semtab[..], k1, k);
    }

    method Resched()
      requires Matches()
      requires k.ndefers > 0 || Base(k, NOHOLE) || (k.procs[k.currpid].state != CURR && k.ready != [])
      modifies this`k, this`currpid, this`preempt, this`midtick, this`attempt, q, q.queuetab, proctab
      ensures Matches() && k == KernelState.Resched(old(k))
    {
      hide Rep, Base, Nowhere, Dispatch, Insert;
      RepSized(q.queuetab[..], q.lists, proctab[..], semtab[..], k);
      if ndefers > 0 {
        attempt := true;
        RepScalars(q.queuetab[..], q.lists, proctab[..], semtab[..], k, k.(attempt := true));
        k := k.(attempt := true);
        return;
      }
      if proctab[currpid].state == CURR {
        FirstKey(q.queuetab[..], q.lists, READYQ);
        PrioRange(k);
        if proctab[currpid].prio > q.queuetab[q.queuetab[readylist].qnext].qkey {
          return;
        }
        HoleOf(k);
        EnterReady(currpid);
        InsertNonempty(old(k));
      } else if k.ready == [] {
        SomethingReady(k);
      }
      Switch();
    }

    /** The hole is a process just taken off its queue. */
    method Ready(pid: Pid) returns (r: int)
      requires Matches() && (IsPid(pid) && k.procs[pid].state != FREE ==>
                Base(k, pid) && pid != k.currpid && k.procs[k.currpid].state == CURR)
      modifies this`k, this`currpid, this`preempt, this`midtick, this`attempt, q, q.queuetab, proctab
      ensures Matches()
      ensures !IsPid(pid) || old(k).procs[pid].state == FREE ==> r == SYSERR && k == old(k)
      ensures IsPid(pid) && old(k).procs[pid].state != FREE ==> r == OK && k == KernelState.Ready(old(k), pid)
    {
      hide Rep, Base, Insert, KernelState.Resched;
      RepSized(q.queuetab[..], q.lists, proctab[..], semtab[..], k);
      if q.IsBadPid(pid) {
        return SYSERR;
      }
      HoleFacts(k, pid);
      JoinReady(k, pid);
      JoinCurrent(k, pid);
      EnterReady(pid);
      Resched();
      r := OK;
    }

    /** resched_cntl(DEFER_START) */
    method DeferStart() returns (r: int)
      requires Matches()
      modifies this`k, this`ndefers, this`attempt
      ensures Matches() && r == OK && k == KernelState.DeferStart(old(k))
    {
      hide Rep;
      RepSized(q.queuetab[..], q.lists, proctab[..], semtab[..], k);
      ndefers := ndefers + 1;
      if ndefers - 1 == 0 {
        attempt := false;
      }
      k := KernelState.DeferStart(k);
      RepScalars(q.queuetab[..], q.lists, proctab[..], semtab[..], old(k), k);
      r := OK;
    }

    /** resched_cntl(DEFER_STOP) */
    method DeferStop() returns (r: int)
      requires Matches() && Base(k, NOHOLE) && k.procs[k.currpid].state == CURR
      modifies this`k, this`currpid, this`preempt, this`midtick, this`attempt, this`ndefers, q, q.queuetab, proctab
      ensures Matches() && k == KernelState.DeferStop(old(k))
      ensures r == SYSERR <==> old(ndefers) <= 0
    {
      hide Rep, Base, KernelState.Resched;
      RepSized(q.queuetab[..], q.lists, proctab[..], semtab[..], k);
      if ndefers <= 0 {
        return SYSERR;
      }
      ndefers := ndefers - 1;
      ghost var k1 := k.(ndefers := ndefers);
      RepScalars(q.queuetab[..], q.lists, proctab[..], semtab[..], k, k1);
      DefersLeft(k, k1);
      k := k1;
      if ndefers == 0 && attempt {
        Resched();
      }
      r := OK;
    }

    // ---------- Semaphores ----------

    static predicate IsBadSem(s: int) {
      s < 0 || s >= NSEM
    }

    /** A change to an entry of semtab. */
    method SetEntry(s: int, used: bool, count: int)
      requires Matches() && 0 <= s < NSEM
      modifies this`k, semtab
      ensures Matches() && k == SetSem(old(k), s, old(k).sems[s].(used := used, count := count))
    {
      hide Rep;
      RepSized(q.queuetab[..], q.lists, proctab[..], semtab[..], k);
      ghost var sem := k.sems[s].(used := used, count := count);
      semtab[s] := semtab[s].(used := used, count := count);
      KeysSelf(q.queuetab[..]);
      RepSem(q.queuetab[..], q.queuetab[..], q.lists, proctab[..], old(semtab[..]), k, s, sem);
      assert q.lists[s := sem.queue] == q.lists;
      assert semtab[..] == old(semtab[..])[s := SemEntry(used, count, Head(s))];
      k := SetSem(k, s, sem);
    }

    /** `dequeue(squeue)` on a queue that is not empty. */
    method PopSem(s: int) returns (pid: Pid)
      requires Matches() && 0 <= s < NSEM && k.sems[s].queue != []
      modifies this`k, q, q.queuetab
      ensures Matches() && pid == old(k).sems[s].queue[0]
                && k == SetSem(old(k), s, old(k).sems[s].(queue := old(k).sems[s].queue[1..]))
    {
      hide Rep;
      RepSized(q.queuetab[..], q.lists, proctab[..], semtab[..], k);
      ghost var sem := k.sems[s].(queue := k.sems[s].queue[1..]);
      pid := q.Dequeue(semtab[s].squeue);
      RepSem(old(q.queuetab[..]), q.queuetab[..], old(q.lists), proctab[..], semtab[..], k, s, sem);
      assert semtab[..][s := SemEntry(sem.used, sem.count, Head(s))] == semtab[..];
      k := SetSem(k, s, sem);
    }

    /** `getfirst(squeue)` on a queue that is not empty. */
    method GetfirstSem(s: int) returns (pid: Pid)
      requires Matches() && 0 <= s < NSEM && k.sems[s].queue != []
      modifies this`k, q, q.queuetab
      ensures Matches() && pid == old(k).sems[s].queue[0]
                && k == SetSem(old(k), s, old(k).sems[s].(queue := old(k).sems[s].queue[1..]))
    {
      hide Rep;
      RepSized(q.queuetab[..], q.lists, proctab[..], semtab[..], k);
      ghost var sem := k.sems[s].(queue := k.sems[s].queue[1..]);
      pid := q.Getfirst(semtab[s].squeue);
      RepSem(old(q.queuetab[..]), q.queuetab[..], old(q.lists), proctab[..], semtab[..], k, s, sem);
      assert semtab[..][s := SemEntry(sem.used, sem.count, Head(s))] == semtab[..];
      k := SetSem(k, s, sem);
    }

    /** wait.c:29-35, when the caller has to block: it goes to the end of the queue. */
    method PushSem(s: int)
      requires Matches() && 0 <= s < NSEM && Nowhere(k, k.currpid)
      modifies this`k, q, q.queuetab, proctab
      ensures Matches()
      ensures
        var sem := old(k).sems[s].(queue := old(k).sems[s].queue + [old(k).currpid]);
        var k1 := SetSem(old(k), s, sem);
        k == k1.(procs := k1.procs[k1.currpid := k1.procs[k1.currpid].(state := WAIT, sem := s)])
    {
      hide Rep;
      RepSized(q.queuetab[..], q.lists, proctab[..], semtab[..], k);
      NowhereUnlisted(q.queuetab[..], q.lists, proctab[..], semtab[..], k, currpid);
      ghost var sem := k.sems[s].(queue := k.sems[s].queue + [currpid]);
      proctab[currpid] := proctab[currpid].(state := WAIT);
      proctab[currpid] := proctab[currpid].(sem := s);
      var _ := q.Enqueue(currpid, semtab[s].squeue);
      RepSem(old(q.queuetab[..]), q.queuetab[..], old(q.lists), old(proctab[..]), semtab[..], k, s, sem);
      assert semtab[..][s := SemEntry(sem.used, sem.count, Head(s))] == semtab[..];
      ghost var k1 := SetSem(k, s, sem);
      ghost var k2 := k1.(procs := k1.procs[currpid := k1.procs[currpid].(state := WAIT, sem := s)]);
      KeysSelf(q.queuetab[..]);
      assert proctab[..] == k2.procs;
      RepFrame(q.queuetab[..], q.queuetab[..], q.lists, old(proctab[..]), semtab[..], k1, k2, proctab[..]);
      k := k2;
    }

    method Wait(sem: int) returns (r: int)
      requires Valid() && Relieved(k, CWait(sem))
      modifies this`k, this`currpid, this`preempt, this`midtick, this`attempt, q, q.queuetab, proctab, semtab
      ensures Matches() && k == KernelState.Wait(old(k), sem) && (Inv(k) <==> Allowed(old(k), CWait(sem)))
      ensures (r == OK <==> GoodSem(old(k), sem)) && (r == OK || r == SYSERR)
    {
      hide Rep, Inv, KernelState.Resched, Nowhere, Base;
      RepSized(q.queuetab[..], q.lists, proctab[..], semtab[..], k);
      InvSized(k);
      StepKeepsIff(k, CWait(sem));
      if IsBadSem(sem) {
        return SYSERR;
      }
      if !semtab[sem].used {
        return SYSERR;
      }
      ghost var k0 := k;
      SetEntry(sem, true, semtab[sem].count - 1);
      RepSized(q.queuetab[..], q.lists, proctab[..], semtab[..], k);
      if semtab[sem].count < 0 {
        BlockHole(k0, sem);
        PushSem(sem);
        WaitTwice(k0, sem);
        if k0.currpid != NULLPROC && k0.ndefers == 0 { WaitStates(k0, sem); }
        Resched();
      }
      r := OK;
    }

    /** `if (scount++ < 0) ready(dequeue(squeue))` of signal and signaln. */
    method Release(sem: int)
      requires Valid() && GoodSem(k, sem)
      modifies this`k, this`currpid, this`preempt, this`midtick, this`attempt, q, q.queuetab, proctab, semtab
      ensures Valid() && k == SignalOne(old(k), sem)
    {
      hide Rep, Inv, KernelState.Ready, Base;
      RepSized(q.queuetab[..], q.lists, proctab[..], semtab[..], k);
      ghost var k0 := k;
      SignalOneKeeps(k, sem);
      SignalOneFacts(k, sem);
      SetEntry(sem, true, semtab[sem].count + 1);
      RepSized(q.queuetab[..], q.lists, proctab[..], semtab[..], k);
      if semtab[sem].count - 1 < 0 {
        var pid := PopSem(sem);
        assert k == SetSem(k0, sem, Sem(true, k0.sems[sem].count + 1, k0.sems[sem].queue[1..]));
        var _ := Ready(pid);
      }
    }

    method Signal(sem: int) returns (r: int)
      requires Valid()
      modifies this`k, this`currpid, this`preempt, this`midtick, this`attempt, q, q.queuetab, proctab, semtab
      ensures Valid() && k == KernelState.Signal(old(k), sem) && (r == OK <==> GoodSem(old(k), sem))
                && (r == OK || r == SYSERR)
    {
      hide Rep, Inv, SignalOne;
      RepSized(q.queuetab[..], q.lists, proctab[..], semtab[..], k);
      if IsBadSem(sem) {
        return SYSERR;
      }
      if !semtab[sem].used {
        return SYSERR;
      }
      Release(sem);
      r := OK;
    }

    method SignalN(sem: int, count: int) returns (r: int)
      requires Valid()
      modifies this`k, this`currpid, this`preempt, this`midtick, this`attempt, this`ndefers, q, q.queuetab, proctab,
          semtab
      ensures Valid() && k == KernelState.SignalN(old(k), sem, count)
      ensures (r == OK <==> GoodSem(old(k), sem) && count >= 0) && (r == OK || r == SYSERR)
    {
      hide Rep, Inv, SignalOne, KernelState.DeferStart, KernelState.DeferStop;
      RepSized(q.queuetab[..], q.lists, proctab[..], semtab[..], k);
      if IsBadSem(sem) || count < 0 {
        return SYSERR;
      }
      if !semtab[sem].used {
        return SYSERR;
      }
      ghost var k0 := k;
      DeferInv(k);
      DeferStarted(k);
      var _ := DeferStart();
      ghost var k1 := k;
      var left := count;
      while left > 0
        invariant 0 <= left && Valid() && Sized(k) && Sized(k1) && GoodSem(k, sem)
                    && SignalLoop(k, sem, left) == SignalLoop(k1, sem, count)
      {
        SignalOneKeeps(k, sem);
        Release(sem);
        InvSized(k);
        left := left - 1;
      }
      DeferInv(k);
      InvParts(k);
      var _ := DeferStop();
      r := OK;
    }

    /** The search of newsem, semcreate.c:40-44. */
    method SearchSem(ghost sems: seq<Sem>) returns (sem: int)
      requires semtab.Length == NSEM == |sems| && 0 <= nextsem < NSEM && forall s :: 0 <= s < NSEM ==>
                semtab[s].used == sems[s].used
      modifies this`nextsem
      ensures sem == FindSem(sems, old(nextsem), NSEM)
      ensures nextsem == if sem == -1 then old(nextsem) else (sem + 1) % NSEM
    {
      hide FindSem;
      for i := 0 to NSEM
        invariant 0 <= nextsem < NSEM && nextsem == (old(nextsem) + i) % NSEM
        invariant FindSem(sems, old(nextsem), NSEM) == FindSem(sems, nextsem, NSEM - i)
      {
        sem := nextsem;
        SearchStep(sems, sem, NSEM - i);
        nextsem := nextsem + 1;
        if nextsem >= NSEM {
          nextsem := 0;
        }
        if !semtab[sem].used {
          return sem;
        }
      }
      SearchStep(sems, nextsem, 0);
      sem := SYSERR;
    }

    /** newsem: the next free entry is taken into use. */
    method NewSem() returns (r: int)
      requires Matches()
      modifies this`k, this`nextsem, semtab
      ensures Matches()
      ensures
        var s := FindSem(old(k).sems, old(k).nextsem, NSEM);
        && r == s
        && k == if s == -1 then old(k) else SetSem(old(k), s, old(k).sems[s].(used := true)).(nextsem := (s + 1) % NSEM)
    {
      hide Rep, FindSem;
      RepSized(q.queuetab[..], q.lists, proctab[..], semtab[..], k);
      r := SearchSem(k.sems);
      if r == SYSERR {
        return;
      }
      ghost var k1 := k.(nextsem := nextsem);
      RepScalars(q.queuetab[..], q.lists, proctab[..], semtab[..], k, k1);
      k := k1;
      SetEntry(r, true, semtab[r].count);
    }

    method SemCreate(count: int) returns (r: int)
      requires Valid()
      modifies this`k, this`nextsem, semtab
      ensures Valid() && k == KernelState.SemCreate(old(k), count)
      ensures r == if count < 0 then SYSERR else FindSem(old(k).sems, old(k).nextsem, NSEM)
    {
      hide Rep, Inv, FindSem;
      RepSized(q.queuetab[..], q.lists, proctab[..], semtab[..], k);
      SemCreateKeeps(k, count);
      if count < 0 {
        return SYSERR;
      }
      ghost var k0 := k;
      r := NewSem();
      if r == SYSERR {
        return;
      }
      RepSized(q.queuetab[..], q.lists, proctab[..], semtab[..], k);
      SetEntry(r, true, count);
      assert k.sems == KernelState.SemCreate(k0, count).sems;
    }

    method SemDelete(sem: int) returns (r: int)
      requires Valid()
      modifies this`k, this`currpid, this`preempt, this`midtick, this`attempt, this`ndefers, q, q.queuetab, proctab,
          semtab
      ensures Valid() && k == KernelState.SemDelete(old(k), sem) && (r == OK <==> GoodSem(old(k), sem))
                && (r == OK || r == SYSERR)
    {
      hide Rep, Inv, InvBut, ReadyAll, KernelState.DeferStart, KernelState.DeferStop;
      RepSized(q.queuetab[..], q.lists, proctab[..], semtab[..], k);
      SemDeleteKeeps(k, sem);
      if IsBadSem(sem) {
        return SYSERR;
      }
      if !semtab[sem].used {
        return SYSERR;
      }
      ghost var k0 := k;
      ghost var kd := KernelState.DeferStart(SetSem(k, sem, k.sems[sem].(used := false)));
      DeleteStart(k, sem);
      SetEntry(sem, false, semtab[sem].count);
      var _ := DeferStart();
      RepSized(q.queuetab[..], q.lists, proctab[..], semtab[..], k);
      while semtab[sem].count < 0
        invariant Matches() && Sized(k) && Sized(kd) && InvBut(k, sem)
                    && |k.sems[sem].queue| == Positive(-k.sems[sem].count)
        invariant semtab[sem] == SemEntry(k.sems[sem].used, k.sems[sem].count, Head(sem)) && !k.sems[sem].used
        invariant ReadyAll(k, sem, true) == ReadyAll(kd, sem, true)
        decreases -semtab[sem].count
      {
        DrainOne(sem, semtab[sem].count + 1, true);
        RepSized(q.queuetab[..], q.lists, proctab[..], semtab[..], k);
      }
      DrainDone(k, sem, true);
      ghost var k1 := k;
      SetEntry(sem, false, semtab[sem].count + 1);
      DrainStop(k1, sem, k1.sems[sem].(count := k1.sems[sem].count + 1));
      var _ := DeferStop();
      r := OK;
    }

    /** `ready(getfirst(squeue))` of semdelete and semreset, after the count is set. */
    method DrainOne(sem: int, count: int, ghost countUp: bool)
      requires Matches() && 0 <= sem < NSEM && InvBut(k, sem) && k.sems[sem].queue != []
      requires count == if countUp then k.sems[sem].count + 1 else k.sems[sem].count
      modifies this`k, this`currpid, this`preempt, this`midtick, this`attempt, q, q.queuetab, proctab, semtab
      ensures Matches() && Sized(k) && InvBut(k, sem) && ReadyAll(k, sem, countUp) == ReadyAll(old(k), sem, countUp)
      ensures k.sems[sem] == Sem(old(k).sems[sem].used, count, old(k).sems[sem].queue[1..])
    {
      hide Rep, InvBut, KernelState.Ready, Base;
      ButSized(k, sem);
      RepSized(q.queuetab[..], q.lists, proctab[..], semtab[..], k);
      ghost var k0 := k;
      ghost var sem1 := Sem(k.sems[sem].used, count, k.sems[sem].queue[1..]);
      DequeueHole(k, sem, sem1);
      DequeueReady(k, sem, sem1);
      SetEntry(sem, semtab[sem].used, count);
      var pid := GetfirstSem(sem);
      assert k.sems == SetSem(k0, sem, sem1).sems;
      assert k == SetSem(k0, sem, sem1);
      var _ := Ready(pid);
      ButSized(k, sem);
    }

    method SemReset(sem: int, count: int) returns (r: int)
      requires Valid()
      modifies this`k, this`currpid, this`preempt, this`midtick, this`attempt, this`ndefers, q, q.queuetab, proctab,
          semtab
      ensures Valid() && k == KernelState.SemReset(old(k), sem, count)
      ensures (r == OK <==> GoodSem(old(k), sem) && count >= 0) && (r == OK || r == SYSERR)
    {
      hide Rep, Inv, InvBut, ReadyAll, KernelState.DeferStart, KernelState.DeferStop;
      RepSized(q.queuetab[..], q.lists, proctab[..], semtab[..], k);
      SemResetKeeps(k, sem, count);
      if count < 0 || IsBadSem(sem) {
        return SYSERR;
      }
      if !semtab[sem].used {
        return SYSERR;
      }
      ghost var k0 := k;
      ghost var kd := KernelState.DeferStart(k);
      ResetStart(k, sem);
      var _ := DeferStart();
      RepSized(q.queuetab[..], q.lists, proctab[..], semtab[..], k);
      FirstKey(q.queuetab[..], q.lists, sem);
      while q.queuetab[semtab[sem].squeue].qnext < NPROC
        invariant Matches() && Sized(k) && Sized(kd) && InvBut(k, sem)
        invariant semtab[sem] == SemEntry(k.sems[sem].used, k.sems[sem].count, Head(sem)) && k.sems[sem].used
        invariant 0 <= Head(sem) < NQENT && (q.queuetab[Head(sem)].qnext < NPROC <==> k.sems[sem].queue != [])
        invariant ReadyAll(k, sem, false) == ReadyAll(kd, sem, false)
        decreases |k.sems[sem].queue|
      {
        DrainOne(sem, semtab[sem].count, false);
        RepSized(q.queuetab[..], q.lists, proctab[..], semtab[..], k);
        FirstKey(q.queuetab[..], q.lists, sem);
      }
      DrainDone(k, sem, false);
      ghost var k1 := k;
      SetEntry(sem, true, count);
      DrainStop(k1, sem, k1.sems[sem].(count := count));
      var _ := DeferStop();
      r := OK;
    }

    // ---------- The sleep queue ----------

    /** `insertd(currpid, sleepq, delay)` */
    method PushSleep(delay: int)
      requires Matches() && Nowhere(k, k.currpid) && k.procs[k.currpid].state != FREE
      modifies this`k, q, q.queuetab
      ensures Matches() && k == old(k).(sleepq := InsertD(old(k).sleepq, old(k).currpid, delay))
    {
      hide Rep, Sleepers, Nowhere, Unlisted;
      RepSized(q.queuetab[..], q.lists, proctab[..], semtab[..], k);
      NowhereUnlisted(q.queuetab[..], q.lists, proctab[..], semtab[..], k, currpid);
      ghost var t := q.queuetab[..];
      ghost var lists := q.lists;
      RepSleepers(t, lists, proctab[..], semtab[..], k);
      var _ := q.InsertD(currpid, sleepq, delay);
      SleepersPids(q.queuetab[..], q.lists[SLEEPQ]);
      ReadyNotAsleep(t, lists, proctab[..], semtab[..], k, currpid);
      RepSleep(t, q.queuetab[..], lists, proctab[..], semtab[..], k, q.lists[SLEEPQ]);
      k := k.(sleepq := InsertD(k.sleepq, currpid, delay));
    }

    /** `dequeue(sleepq)` on a queue that is not empty. */
    method PopSleep() returns (pid: Pid)
      requires Matches() && k.sleepq != []
      modifies this`k, q, q.queuetab
      ensures Matches() && pid == old(k).sleepq[0].pid && IsPid(pid) && k == old(k).(sleepq := old(k).sleepq[1..])
    {
      hide Rep;
      RepSized(q.queuetab[..], q.lists, proctab[..], semtab[..], k);
      ghost var t := q.queuetab[..];
      ghost var l := q.lists[SLEEPQ];
      RepSleepers(t, q.lists, proctab[..], semtab[..], k);
      pid := q.Dequeue(sleepq);
      SleepersPids(q.queuetab[..], l[1..]);
      SleepersTail(t, q.queuetab[..], l);
      RepSleep(t, q.queuetab[..], old(q.lists), proctab[..], semtab[..], k, l[1..]);
      k := k.(sleepq := k.sleepq[1..]);
    }

    /** `--queuetab[firstid(sleepq)].qkey` */
    method CountDown() returns (key: int)
      requires Matches() && k.sleepq != []
      modifies this`k, q.queuetab
      ensures Matches() && key == old(k).sleepq[0].key - 1
      ensures k == old(k).(sleepq := [old(k).sleepq[0].(key := old(k).sleepq[0].key - 1)] + old(k).sleepq[1..])
    {
      hide Rep;
      RepSized(q.queuetab[..], q.lists, proctab[..], semtab[..], k);
      ghost var t := q.queuetab[..];
      ghost var l := q.lists[SLEEPQ];
      RepSleepers(t, q.lists, proctab[..], semtab[..], k);
      FirstKey(t, q.lists, SLEEPQ);
      MembersArePids(t, q.lists, SLEEPQ);
      var first := q.queuetab[sleepq].qnext;
      key := q.queuetab[first].qkey - 1;
      TableElsewhere(t, q.lists, first, t[first].(qkey := key));
      q.queuetab[first] := q.queuetab[first].(qkey := key);
      assert q.queuetab[..] == t[first := t[first].(qkey := key)];
      SleepersDown(t, l);
      SleepersPids(q.queuetab[..], l);
      ReadyApart(t, q.lists, proctab[..], semtab[..], k);
      RepSleep(t, q.queuetab[..], q.lists, proctab[..], semtab[..], k, l);
      assert q.lists[SLEEPQ := l] == q.lists;
      k := k.(sleepq := [k.sleepq[0].(key := k.sleepq[0].key - 1)] + k.sleepq[1..]);
    }

    /** insertd and the change of state, sleep.c:44-49 and recvtime.c:26-30. */
    method GoToSleep(delay: int, st: PrState)
      requires Valid() && delay >= 0 && Asleep(st)
      requires k.ndefers == 0 && k.currpid == NULLPROC ==> k.ready != []
      modifies this`k, this`currpid, this`preempt, this`midtick, this`attempt, q, q.queuetab, proctab
      ensures Matches() && k == SleepAs(old(k), delay, st)
    {
      hide Rep, Inv, Base, Nowhere, KernelState.Resched;
      InvSized(k);
      InvHole(k);
      if k.currpid != NULLPROC && k.ndefers == 0 { SleepBase(k, delay, st); }
      PushSleep(delay);
      RepSized(q.queuetab[..], q.lists, proctab[..], semtab[..], k);
      SetProc(currpid, st);
      Resched();
    }

    method SleepMs(delay: int) returns (r: int)
      requires Valid() && Relieved(k, CSleep(delay))
      modifies this`k, this`currpid, this`preempt, this`midtick, this`attempt, q, q.queuetab, proctab
      ensures Matches() && k == KernelState.SleepMs(old(k), delay) && (Inv(k) <==> Allowed(old(k), CSleep(delay)))
      ensures r == if delay < 0 then SYSERR else OK
    {
      hide Rep, Inv, SleepAs, KernelState.Resched;
      InvSized(k);
      StepKeepsIff(k, CSleep(delay));
      if delay < 0 {
        return SYSERR;
      }
      if delay == 0 {
        var _ := Yield();
        return OK;
      }
      GoToSleep(delay, SLEEP);
      r := OK;
    }

    method Yield() returns (r: int)
      requires Valid()
      modifies this`k, this`currpid, this`preempt, this`midtick, this`attempt, q, q.queuetab, proctab
      ensures Valid() && k == KernelState.Resched(old(k)) && r == OK
    {
      hide Rep, Inv, KernelState.Resched;
      InvParts(k);
      ReschedInv(k);
      Resched();
      r := OK;
    }

    /** recvtime.c:17-32, when no message is waiting; false when the call fails at once. */
    method RecvTime(maxwait: int) returns (waited: bool)
      requires Valid() && Relieved(k, CRecvTime(maxwait))
      modifies this`k, this`currpid, this`preempt, this`midtick, this`attempt, q, q.queuetab, proctab
      ensures Matches() && k == KernelState.RecvTime(old(k), maxwait)
      ensures (Inv(k) <==> Allowed(old(k), CRecvTime(maxwait))) && (waited <==> maxwait >= 0)
    {
      hide Rep, Inv, SleepAs;
      InvSized(k);
      StepKeepsIff(k, CRecvTime(maxwait));
      if maxwait < 0 {
        return false;
      }
      GoToSleep(maxwait, RECTIM);
      waited := true;
    }

    /** `prstate = st; resched()` for a state without a queue. */
    method Park(st: PrState)
      requires Valid() && (st == SUSP || st == RECV) && (k.ndefers == 0 && k.currpid == NULLPROC ==> k.ready != [])
      modifies this`k, this`currpid, this`preempt, this`midtick, this`attempt, q, q.queuetab, proctab
      ensures Matches() && k == KernelState.Resched(SetState(old(k), old(k).currpid, st))
    {
      hide Rep, Inv, Base, KernelState.Resched;
      InvSized(k);
      if k.currpid != NULLPROC && k.ndefers == 0 { ParkBase(k, st); }
      SetProc(currpid, st);
      Resched();
    }

    /** receive.c:15-20, when no message is waiting. */
    method Receive()
      requires Valid() && Relieved(k, CReceive)
      modifies this`k, this`currpid, this`preempt, this`midtick, this`attempt, q, q.queuetab, proctab
      ensures Matches() && k == KernelState.Receive(old(k)) && (Inv(k) <==> Allowed(old(k), CReceive))
    {
      hide Inv, KernelState.Resched;
      InvSized(k);
      StepKeepsIff(k, CReceive);
      Park(RECV);
    }

    // ---------- The clock ----------

    method Wakeup()
      requires Matches() && InvTail(k)
      modifies this`k, this`currpid, this`preempt, this`midtick, this`attempt, this`ndefers, q, q.queuetab, proctab
      ensures Valid() && k == KernelState.Wakeup(old(k))
    {
      hide Rep, Inv, InvTail, WakeLoop, KernelState.Ready, KernelState.DeferStart, KernelState.DeferStop, Base;
      TailSized(k);
      DeferTail(k);
      var _ := DeferStart();
      ghost var kd := k;
      TailSized(k);
      SleepHead(this);
      while q.queuetab[sleepq].qnext < NPROC && q.queuetab[q.queuetab[sleepq].qnext].qkey <= 0
        invariant Matches() && Sized(k) && Sized(kd) && InvTail(k) && SleepHeadIs(q.queuetab[..], k)
        invariant WakeLoop(k) == WakeLoop(kd)
        decreases |k.sleepq|
      {
        TailSized(k);
        WakeLoopStep(k);
        WakeOne(k);
        SleeperHole(k);
        var pid := PopSleep();
        RepSized(q.queuetab[..], q.lists, proctab[..], semtab[..], k);
        var _ := Ready(pid);
        InvIsTail(k);
        InvSized(k);
        SleepHead(this);
      }
      WakeLoopStep(k);
      WakeLoopKeeps(k);
      InvParts(k);
      DeferInv(k);
      var _ := DeferStop();
    }

    /** clkhandler.c:26-44.  The process that wakeup puts aside goes on from there when it runs again. */
    method Clkhandler()
      requires Valid()
      modifies this`k, this`currpid, this`preempt, this`midtick, this`attempt, this`ndefers, q, q.queuetab, proctab
      ensures Valid() && k == Tick(old(k))
      ensures currpid == old(currpid) ==> preempt == if old(preempt) > 1 then old(preempt) - 1 else QUANTUM
    {
      hide Rep, Inv, InvTail, KernelState.Wakeup, KernelState.Resched;
      InvSized(k);
      TickKeeps(k);
      TickSlice(k);
      ghost var k0 := k;
      var me := currpid;
      TickSleepersKeeps(k);
      SleepHead(this);
      if q.queuetab[sleepq].qnext < NPROC {
        TickStart(k);
        var key := CountDown();
        if key <= 0 {
          Wakeup();
        }
      }
      ghost var k1 := k;
      assert k1 == TickSleepers(k0);
      InvSized(k);
      if currpid != me {
        midtick := midtick + {me};
        SetScalars();
        return;
      }
      preempt := preempt - 1;
      if preempt <= 0 {
        preempt := QUANTUM;
        SetScalars();
        QuantumBase(k1);
        Resched();
      } else {
        SetScalars();
      }
    }

    /** Taking over a change of the preemption counter or of `midtick` into the kernel state. */
    ghost method SetScalars()
      requires q.Valid() && q.proctab == proctab && proctab.Length == NPROC && semtab.Length == NSEM
      requires readylist == Head(READYQ) && sleepq == Head(SLEEPQ)
      requires Rep(q.queuetab[..], q.lists, proctab[..], semtab[..], k)
      requires currpid == k.currpid && ndefers == k.ndefers && attempt == k.attempt && nextsem == k.nextsem
      modifies this`k
      ensures Matches() && k == old(k).(preempt := preempt, midtick := midtick)
    {
      hide Rep;
      RepSized(q.queuetab[..], q.lists, proctab[..], semtab[..], k);
      RepScalars(q.queuetab[..], q.lists, proctab[..], semtab[..], k, k.(preempt := preempt, midtick := midtick));
      k := k.(preempt := preempt, midtick := midtick);
    }

    // ---------- Processes ----------

    /** unsleep: the next sleeper takes over the delay, and the process is unlinked. */
    method Unsleep(pid: Pid) returns (r: int)
      requires Valid()
      modifies this`k, q, q.queuetab
      ensures Matches()
      ensures !IsPid(pid) || !Asleep(old(k).procs[pid].state) ==> r == SYSERR && k == old(k)
      ensures IsPid(pid) && Asleep(old(k).procs[pid].state) ==>
                r == OK && k == old(k).(sleepq := RemoveD(old(k).sleepq, pid))
    {
      hide Rep, Inv, RemoveD, Sleepers, Drop;
      InvSized(k);
      RepSized(q.queuetab[..], q.lists, proctab[..], semtab[..], k);
      if q.IsBadPid(pid) {
        return SYSERR;
      }
      if proctab[pid].state != SLEEP && proctab[pid].state != RECTIM {
        return SYSERR;
      }
      ghost var t := q.queuetab[..];
      ghost var l := q.lists[SLEEPQ];
      ghost var i := SleepIndex(k, pid);
      RepSleepers(t, q.lists, proctab[..], semtab[..], k);
      MembersArePids(t, q.lists, SLEEPQ);
      TableDrop(t, q.lists, SLEEPQ, i);
      var pidnext := q.queuetab[pid].qnext;
      if pidnext < NPROC {
        TableElsewhere(t, q.lists, pidnext, t[pidnext].(qkey := t[pidnext].qkey + t[pid].qkey));
        q.queuetab[pidnext] := q.queuetab[pidnext].(qkey := q.queuetab[pidnext].qkey + q.queuetab[pid].qkey);
        assert q.queuetab[..] == t[pidnext := t[pidnext].(qkey := t[pidnext].qkey + t[pid].qkey)];
      }
      ghost var t1 := q.queuetab[..];
      var _ := q.Getitem(pid, SLEEPQ, i);
      DelayTaken(t, t1, q.queuetab[..], l, i);
      SleepersPids(q.queuetab[..], Drop(l, i));
      ReadyApart(t, old(q.lists), proctab[..], semtab[..], k);
      RepSleep(t, q.queuetab[..], old(q.lists), proctab[..], semtab[..], k, Drop(l, i));
      k := k.(sleepq := RemoveD(k.sleepq, pid));
      r := OK;
    }

    /** `getitem(pid)` for a ready process. */
    method DropReady(pid: Pid)
      requires Valid() && IsPid(pid) && k.procs[pid].state == READY
      modifies this`k, q, q.queuetab
      ensures Matches() && k == old(k).(ready := Without(old(k).ready, pid))
    {
      hide Rep, Inv, Drop, Without;
      InvSized(k);
      RepSized(q.queuetab[..], q.lists, proctab[..], semtab[..], k);
      ghost var i := ReadyIndex(k, pid);
      MembersArePids(q.queuetab[..], q.lists, READYQ);
      DropOK(k.ready, i);
      var _ := q.Getitem(pid, READYQ, i);
      RepReadyDrop(old(q.queuetab[..]), q.queuetab[..], old(q.lists), proctab[..], semtab[..], k,
          k.(ready := Drop(k.ready, i)), i);
      k := k.(ready := Drop(k.ready, i));
    }

    /** `scount++; getitem(pid)` for a process that waits, kill.c:73-78. */
    method DropWaiter(pid: Pid)
      requires Valid() && IsPid(pid) && k.procs[pid].state == WAIT
      modifies this`k, q, q.queuetab, semtab
      ensures Matches() && 0 <= old(k).procs[pid].sem < NSEM
      ensures
        var s := old(k).procs[pid].sem;
        k == SetSem(old(k), s, old(k).sems[s].(count := old(k).sems[s].count + 1, queue :=
            Without(old(k).sems[s].queue, pid)))
    {
      hide Rep, Inv, Drop, Without;
      InvSized(k);
      RepSized(q.queuetab[..], q.lists, proctab[..], semtab[..], k);
      WaiterSem(k, pid);
      var s := proctab[pid].sem;
      ghost var k0 := k;
      ghost var i := WaiterIndex(k, pid);
      SetEntry(s, semtab[s].used, semtab[s].count + 1);
      RepSized(q.queuetab[..], q.lists, proctab[..], semtab[..], k);
      MembersArePids(q.queuetab[..], q.lists, s);
      DropOK(k.sems[s].queue, i);
      ghost var t := q.queuetab[..];
      ghost var sem := k.sems[s].(queue := Drop(k.sems[s].queue, i));
      var _ := q.Getitem(pid, s, i);
      RepSem(t, q.queuetab[..], old(q.lists), proctab[..], semtab[..], k, s, sem);
      assert semtab[..][s := SemEntry(sem.used, sem.count, Head(s))] == semtab[..];
      k := SetSem(k, s, sem);
      assert k.sems == SetSem(k0, s, sem).sems;
    }

    /** suspend returns the priority of the process. */
    method Suspend(pid: Pid) returns (r: int)
      requires Valid()
      modifies this`k, this`currpid, this`preempt, this`midtick, this`attempt, q, q.queuetab, proctab
      ensures Matches() && k == KernelState.Suspend(old(k), pid) && (Inv(k) <==> Allowed(old(k), CSuspend(pid)))
      ensures r == if IsPid(pid) && pid != NULLPROC
                && old(k).procs[pid].state in {READY, CURR} then old(k).procs[pid].prio else SYSERR
    {
      hide Rep, Inv, Without, KernelState.Resched;
      InvSized(k);
      RepSized(q.queuetab[..], q.lists, proctab[..], semtab[..], k);
      StepKeepsIff(k, CSuspend(pid));
      if q.IsBadPid(pid) || pid == NULLPROC {
        return SYSERR;
      }
      if proctab[pid].state != CURR && proctab[pid].state != READY {
        return SYSERR;
      }
      var prio := proctab[pid].prio;
      if proctab[pid].state == READY {
        DropReady(pid);
        SetProc(pid, SUSP);
      } else {
        CurrIsCurrent(k, pid);
        Park(SUSP);
      }
      r := prio;
    }

    method Resume(pid: Pid) returns (r: int)
      requires Valid()
      modifies this`k, this`currpid, this`preempt, this`midtick, this`attempt, q, q.queuetab, proctab
      ensures Valid() && k == KernelState.Resume(old(k), pid)
      ensures r == if IsPid(pid) && old(k).procs[pid].state == SUSP then old(k).procs[pid].prio else SYSERR
    {
      hide Rep, Inv, KernelState.Ready, Base;
      InvSized(k);
      RepSized(q.queuetab[..], q.lists, proctab[..], semtab[..], k);
      if q.IsBadPid(pid) {
        return SYSERR;
      }
      if proctab[pid].state != SUSP {
        return SYSERR;
      }
      var prio := proctab[pid].prio;
      InvParts(k);
      AsHole(k, pid);
      ReadyInv(k, pid);
      var _ := Ready(pid);
      r := prio;
    }

    /** kill.c:17-22 and 62-83.  A process that kills itself comes back from the rescheduling only under a deferral; it
        then goes on with the case of a sleeping process, which does nothing more to a free one. */
    method Kill(pid: Pid) returns (r: int)
      requires Valid()
      modifies this`k, this`currpid, this`preempt, this`midtick, this`attempt, q, q.queuetab, proctab, semtab
      ensures Matches() && k == KernelState.Kill(old(k), pid) && (Inv(k) <==> Allowed(old(k), CKill(pid)))
      ensures r == if IsPid(pid) && pid != NULLPROC && old(k).procs[pid].state != FREE then OK else SYSERR
      ensures r == OK ==> Moves(old(k), k, pid, FREE) && Nowhere(k, pid)
    {
      hide Rep, Inv, Without, RemoveD, Allowed, KernelState.Resched, Moves, Nowhere;
      InvSized(k);
      if IsPid(pid) && pid != NULLPROC && k.procs[pid].state != FREE { KillFrees(k, pid); }
      RepSized(q.queuetab[..], q.lists, proctab[..], semtab[..], k);
      KillIff(k, pid);
      if q.IsBadPid(pid) || pid == NULLPROC {
        return SYSERR;
      }
      r := OK;
      ghost var k0 := k;
      var st := proctab[pid].state;
      if st == CURR {
        CurrIsCurrent(k, pid);
        KillSelf();
      } else if st == SLEEP || st == RECTIM {
        var _ := Unsleep(pid);
        Free(pid);
      } else if st == WAIT {
        DropWaiter(pid);
        Free(pid);
      } else if st == READY {
        DropReady(pid);
        Free(pid);
      } else {
        Free(pid);
      }
    }

    method KillSelf()
      requires Valid() && k.currpid != NULLPROC
      modifies this`k, this`currpid, this`preempt, this`midtick, this`attempt, q, q.queuetab, proctab
      ensures Matches() && k == KernelState.Resched(SetState(old(k), old(k).currpid, FREE).(midtick :=
                old(k).midtick - {old(k).currpid}))
    {
      hide Rep, Inv, Base, KernelState.Resched;
      InvSized(k);
      if k.ndefers == 0 { ParkBase(k, FREE); }
      Free(currpid);
      if old(k).ndefers == 0 { FreeBase(SetState(old(k), old(k).currpid, FREE), k); }
      Resched();
    }

    /** `prstate = PR_FREE`; a free process will not go on in clkhandler. */
    method Free(pid: Pid)
      requires Matches() && IsPid(pid)
      modifies this`k, this`midtick, proctab
      ensures Matches() && k == SetState(old(k), pid, FREE).(midtick := old(k).midtick - {pid})
    {
      hide Rep;
      SetProc(pid, FREE);
      midtick := midtick - {pid};
      SetScalars();
    }
  }

  lemma KillIff(k: Kernel, p: Pid)
    requires Inv(k)
    ensures Sized(k) && (Inv(KernelState.Kill(k, p)) <==> Allowed(k, CKill(p)))
  {
    hide Inv, KernelState.Kill, Allowed;
    StepKeepsIff(k, CKill(p));
  }

  lemma FreeBase(k: Kernel, k1: Kernel)
    requires Base(k, NOHOLE) && Sized(k1) && k1 == k.(midtick := k1.midtick)
    ensures Base(k1, NOHOLE)
  {
    BaseSized(k);
    BaseQueues(k, NOHOLE);
    BaseFrame(k, k1);
  }

  /** Where a process is on the queue that its state says. */
  lemma SleepIndex(k: Kernel, p: Pid) returns (i: int)
    requires Inv(k) && IsPid(p) && Asleep(k.procs[p].state)
    ensures 0 <= i < |Pids(k.sleepq)| && Pids(k.sleepq)[i] == p
  {
    HomeOf(k, p);
    i :| 0 <= i < |Pids(k.sleepq)| && Pids(k.sleepq)[i] == p;
  }

  lemma ReadyIndex(k: Kernel, p: Pid) returns (i: int)
    requires Inv(k) && IsPid(p) && k.procs[p].state == READY
    ensures 0 <= i < |k.ready| && k.ready[i] == p
  {
    HomeOf(k, p);
    i :| 0 <= i < |k.ready| && k.ready[i] == p;
  }

  lemma WaiterIndex(k: Kernel, p: Pid) returns (i: int)
    requires Inv(k) && IsPid(p) && k.procs[p].state == WAIT && 0 <= k.procs[p].sem < NSEM
    ensures var l := k.sems[k.procs[p].sem].queue; 0 <= i < |l| && l[i] == p
  {
    HomeOf(k, p);
    assert WaitsIff(k, p, k.procs[p].sem);
    var l := k.sems[k.procs[p].sem].queue;
    i :| 0 <= i < |l| && l[i] == p;
  }

  /** The sleep queue after unsleep is the one that RemoveD says. */
  lemma DelayTaken(t: seq<QEntry>, t1: seq<QEntry>, t': seq<QEntry>, l: seq<Pid>, i: int)
    requires |t| == NQENT == |t1| == |t'| && QueueOK(l) && 0 <= i < |l|
    requires t1 == if i + 1 < |l| then t[l[i + 1] := t[l[i + 1]].(qkey := t[l[i + 1]].qkey + t[l[i]].qkey)] else t
    requires KeysBut(t1, t', EMPTY)
    ensures Sleepers(t', Drop(l, i)) == RemoveD(Sleepers(t, l), l[i])
    ensures forall y :: y !in l ==> KeyKept(t, t', y)
  {
    RemoveIs(Sleepers(t, l), l, i);
    var d := Sleepers(t, l);
    var d' := Sleepers(t', Drop(l, i));
    var r := Merged(d, i);
    forall n | 0 <= n < |d'| ensures d'[n] == r[n] {
      var o := if n < i then n else n + 1;
      assert Drop(l, i)[n] == l[o];
      assert KeyKept(t1, t', l[o]);
      if i + 1 < |l| && o < i + 1 { assert Differ(l, o, i + 1); }
      if i + 1 < o { assert Differ(l, i + 1, o); }
    }
    assert d' == r;
    forall y | y !in l ensures KeyKept(t, t', y) { assert KeyKept(t1, t', y); }
  }

  /** The queue without entry `i`, whose delay goes to the entry behind it. */
  function Merged(d: seq<Sleeper>, i: int): seq<Sleeper>
    requires 0 <= i < |d|
  {
    if i + 1 < |d| then d[..i] + [d[i + 1].(key := d[i + 1].key + d[i].key)] + d[i + 2..] else d[..i]
  }

  lemma MergedTail(d: seq<Sleeper>, i: int)
    requires 0 < i < |d|
    ensures Merged(d, i) == [d[0]] + Merged(d[1..], i - 1)
  {
    if i + 1 < |d| {
      assert d[1..][..i - 1] == d[1..i] && d[1..][i + 1..] == d[i + 2..] && d[..i] == [d[0]] + d[1..i];
    } else {
      assert d[..i] == [d[0]] + d[1..][..i - 1];
    }
  }

  lemma {:induction false} RemoveIs(d: seq<Sleeper>, l: seq<Pid>, i: int)
    requires |d| == |l| && QueueOK(l) && 0 <= i < |l| && forall n :: 0 <= n < |d| ==> d[n].pid == l[n]
    ensures RemoveD(d, l[i]) == Merged(d, i)
  {
    if i > 0 {
      hide Merged;
      assert Differ(l, 0, i);
      TailOK(l);
      RemoveIs(d[1..], l[1..], i - 1);
      MergedTail(d, i);
    }
  }

  lemma InvHole(k: Kernel)
    requires Inv(k)
    ensures Nowhere(k, k.currpid) && k.procs[k.currpid].state == CURR
  {
    AsHole(k, k.currpid);
  }

  lemma SleepBase(k: Kernel, delay: int, st: PrState)
    requires Inv(k) && k.currpid != NULLPROC && k.ndefers == 0 && delay >= 0 && Asleep(st)
    ensures Base(SetState(k.(sleepq := InsertD(k.sleepq, k.currpid, delay)), k.currpid, st), NOHOLE)
  {
    hide ByPriority, NullOK, Urgent, Placed, InsertD;
    JoinSleep(k, delay, st);
  }

  lemma ParkBase(k: Kernel, st: PrState)
    requires Inv(k) && k.currpid != NULLPROC && k.ndefers == 0 && (st == SUSP || st == RECV || st == FREE)
    ensures Base(SetState(k, k.currpid, st), NOHOLE)
  {
    hide Placed, ByPriority, NullOK, Urgent;
    InvSized(k);
    AsHole(k, k.currpid);
    FillHole(k, k.currpid, st);
  }

  /** What isempty(sleepq) and firstkey(sleepq) find. */
  ghost predicate SleepHeadIs(t: seq<QEntry>, k: Kernel) {
    && |t| == NQENT && 0 <= Head(SLEEPQ) < NQENT && 0 <= t[Head(SLEEPQ)].qnext < NQENT
    && (t[Head(SLEEPQ)].qnext < NPROC <==> k.sleepq != [])
    && (k.sleepq != [] ==> t[t[Head(SLEEPQ)].qnext].qkey == k.sleepq[0].key && IsPid(k.sleepq[0].pid))
  }

  lemma SleepHead(m: Machine)
    requires m.Matches()
    ensures SleepHeadIs(m.q.queuetab[..], m.k) && m.q.queuetab.Length == NQENT
  {
    var t := m.q.queuetab[..];
    FirstKey(t, m.q.lists, SLEEPQ);
    MembersArePids(t, m.q.lists, SLEEPQ);
    RepSleepers(t, m.q.lists, m.proctab[..], m.semtab[..], m.k);
    if m.k.sleepq != [] { assert Sleepers(t, m.q.lists[SLEEPQ])[0] == m.k.sleepq[0]; }
  }

  lemma WakeLoopStep(k: Kernel)
    requires Sized(k) && (k.sleepq != [] ==> IsPid(k.sleepq[0].pid))
    ensures WakeLoop(k) == if k.sleepq == [] || k.sleepq[0].key > 0 then k
                           else WakeLoop(KernelState.Ready(k.(sleepq := k.sleepq[1..]), k.sleepq[0].pid))
  {
  }

  /** The state after the first delay is counted down. */
  lemma TickStart(k: Kernel)
    requires Inv(k) && k.sleepq != []
    ensures
      var k1 := k.(sleepq := [k.sleepq[0].(key := k.sleepq[0].key - 1)] + k.sleepq[1..]);
      InvTail(k1) && Sized(k1) && (k1.sleepq[0].key > 0 ==> Inv(k1))
      && TickSleepers(k) == if k1.sleepq[0].key <= 0 then KernelState.Wakeup(k1) else k1
  {
    hide Placed, ByPriority, NullOK, Urgent, KernelState.Wakeup;
    InvSized(k);
    var k1 := k.(sleepq := [k.sleepq[0].(key := k.sleepq[0].key - 1)] + k.sleepq[1..]);
    assert Pids(k1.sleepq) == Pids(k.sleepq);
    BaseFrame(k, k1);
    UrgentFrame(k, k1);
    assert k1.sleepq[1..] == k.sleepq[1..];
    if k1.sleepq[0].key > 0 { TailIsInv(k1); }
  }

  lemma QuantumBase(k: Kernel)
    requires Inv(k)
    ensures Base(k.(preempt := QUANTUM), NOHOLE) && k.procs[k.currpid].state == CURR
  {
    hide Placed, ByPriority, NullOK, Urgent;
    InvSized(k);
    BaseFrame(k, k.(preempt := QUANTUM));
  }

  lemma RepSleepers(t: seq<QEntry>, lists: seq<seq<Pid>>, procs: seq<Proc>, sems: seq<SemEntry>, k: Kernel)
    requires Rep(t, lists, procs, sems, k)
    ensures |t| == NQENT && |lists| == NSEM + 2 && Sleepers(t, lists[SLEEPQ]) == k.sleepq
              && lists[SLEEPQ] == Pids(k.sleepq)
  {
  }

  /** No ready process is on the sleep queue. */
  lemma ReadyApart(t: seq<QEntry>, lists: seq<seq<Pid>>, procs: seq<Proc>, sems: seq<SemEntry>, k: Kernel)
    requires Rep(t, lists, procs, sems, k) && TableOK(t, lists)
    ensures forall i :: 0 <= i < |k.ready| ==> k.ready[i] !in lists[SLEEPQ]
  {
    assert ApartAt(lists, READYQ, SLEEPQ);
    forall i | 0 <= i < |k.ready| ensures k.ready[i] !in lists[SLEEPQ] { assert k.ready[i] in lists[READYQ]; }
  }

  lemma ReadyNotAsleep(t: seq<QEntry>, lists: seq<seq<Pid>>, procs: seq<Proc>, sems: seq<SemEntry>, k: Kernel, p: Pid)
    requires Rep(t, lists, procs, sems, k) && TableOK(t, lists) && Nowhere(k, p)
    ensures forall i :: 0 <= i < |k.ready| ==> k.ready[i] !in lists[SLEEPQ] && k.ready[i] != p
  {
    ReadyApart(t, lists, procs, sems, k);
  }

  lemma SleepersTail(t: seq<QEntry>, t': seq<QEntry>, l: seq<Pid>)
    requires |t| == NQENT == |t'| && l != [] && KeysBut(t, t', EMPTY)
    ensures Sleepers(t', l[1..]) == Sleepers(t, l)[1..]
  {
    forall i | 0 <= i < |l| - 1 ensures Sleepers(t', l[1..])[i] == Sleepers(t, l)[1..][i] {
      assert KeyKept(t, t', l[i + 1]);
    }
  }

  lemma SleepersDown(t: seq<QEntry>, l: seq<Pid>)
    requires |t| == NQENT && l != [] && QueueOK(l)
    ensures IsPid(l[0])
    ensures
      var d := Sleepers(t, l);
      Sleepers(t[l[0] := t[l[0]].(qkey := t[l[0]].qkey - 1)], l) == [d[0].(key := d[0].key - 1)] + d[1..]
  {
    TailOK(l);
    var d := Sleepers(t, l);
    var d' := Sleepers(t[l[0] := t[l[0]].(qkey := t[l[0]].qkey - 1)], l);
    forall i | 1 <= i < |l| ensures d'[i] == d[i] { assert l[i] == l[1..][i - 1]; }
  }

  lemma SearchStep(sems: seq<Sem>, next: int, left: nat)
    requires |sems| == NSEM && 0 <= next < NSEM
    ensures left > 0 && sems[next].used ==> FindSem(sems, next, left) == FindSem(sems, (next + 1) % NSEM, left - 1)
    ensures left > 0 && !sems[next].used ==> FindSem(sems, next, left) == next
    ensures left == 0 ==> FindSem(sems, next, left) == -1
  {
  }

  lemma DeleteStart(k: Kernel, s: int)
    requires Inv(k) && GoodSem(k, s)
    ensures
      var k0 := SetSem(k, s, k.sems[s].(used := false));
      && InvBut(KernelState.DeferStart(k0), s) && KernelState.DeferStart(k0).sems == k0.sems
      && |k.sems[s].queue| == Positive(-k.sems[s].count) && Sized(KernelState.DeferStart(k0))
  {
    hide Base, InvBut, Running;
    InvSized(k);
    InvIsBut(k, s);
    assert SemOK(k.sems[s]);
    CountKeeps(k, s, k.sems[s].(used := false));
    DeferStartKeeps(SetSem(k, s, k.sems[s].(used := false)), s);
    DeferStarted(SetSem(k, s, k.sems[s].(used := false)));
  }

  lemma ResetStart(k: Kernel, s: int)
    requires Inv(k) && GoodSem(k, s)
    ensures InvBut(KernelState.DeferStart(k), s) && KernelState.DeferStart(k).sems == k.sems
              && Sized(KernelState.DeferStart(k))
  {
    hide Inv, InvBut;
    InvSized(k);
    InvIsBut(k, s);
    DeferStartKeeps(k, s);
    DeferStarted(k);
  }

  lemma DrainDone(k: Kernel, s: int, countUp: bool)
    requires Sized(k) && 0 <= s < NSEM && k.sems[s].queue == []
    ensures ReadyAll(k, s, countUp) == k
  {
  }

  lemma DrainStop(k: Kernel, s: int, sem: Sem)
    requires InvBut(k, s) && 0 <= s < NSEM && sem.queue == k.sems[s].queue
    ensures
      var k1 := SetSem(k, s, sem);
      Base(k1, NOHOLE) && k1.procs[k1.currpid].state == CURR
  {
    hide Base;
    ButSized(k, s);
    CountKeeps(k, s, sem);
  }

  lemma InvParts(k: Kernel)
    requires Inv(k)
    ensures Base(k, NOHOLE) && k.procs[k.currpid].state == CURR
  {
  }

  /** What wait finds: the current process is on no queue. */
  lemma BlockHole(k: Kernel, s: int)
    requires Inv(k) && GoodSem(k, s)
    ensures
      var k1 := SetSem(k, s, k.sems[s].(count := k.sems[s].count - 1));
      Nowhere(k1, k1.currpid)
  {
    hide ByPriority, NullOK, Urgent;
    AsHole(k, k.currpid);
    var k1 := SetSem(k, s, k.sems[s].(count := k.sems[s].count - 1));
    forall t ensures WaitsNot(k1, k1.currpid, t) { assert WaitsNot(k, k.currpid, t); }
  }

  /** Counting down and queueing one after the other. */
  lemma WaitTwice(k: Kernel, s: int)
    requires Sized(k) && 0 <= s < NSEM
    ensures
      var sem := k.sems[s];
      var ka := SetSem(k, s, sem.(count := sem.count - 1));
      var kb := SetSem(ka, s, ka.sems[s].(queue := ka.sems[s].queue + [k.currpid]));
      kb == SetSem(k, s, sem.(count := sem.count - 1, queue := sem.queue + [k.currpid]))
  {
  }

  /** The state in which wait reschedules. */
  lemma WaitStates(k: Kernel, s: int)
    requires Inv(k) && GoodSem(k, s) && k.currpid != NULLPROC && k.ndefers == 0
    ensures Sized(k)
    ensures
      var sem := k.sems[s];
      var ka := SetSem(k, s, sem.(count := sem.count - 1));
      var kb := SetSem(ka, s, ka.sems[s].(queue := ka.sems[s].queue + [k.currpid]));
      var kc := kb.(procs := kb.procs[kb.currpid := kb.procs[kb.currpid].(state := WAIT, sem := s)]);
      && Base(kc, NOHOLE) && kc.ndefers == 0
      && kb == SetSem(k, s, sem.(count := sem.count - 1, queue := sem.queue + [k.currpid]))
  {
    hide ByPriority, NullOK, Urgent, Placed;
    InvSized(k);
    var sem := k.sems[s];
    var kb := SetSem(k, s, sem.(count := sem.count - 1, queue := sem.queue + [k.currpid]));
    var ka := SetSem(k, s, sem.(count := sem.count - 1));
    assert SetSem(ka, s, ka.sems[s].(queue := sem.queue + [k.currpid])).sems == kb.sems;
    JoinSem(k, kb.(procs := kb.procs[kb.currpid := kb.procs[kb.currpid].(state := WAIT, sem := s)]), s);
  }

  /** What signal finds: the count is below zero exactly when the queue is not empty, and its first process can be
      made ready. */
  lemma SignalOneFacts(k: Kernel, s: int)
    requires Inv(k) && GoodSem(k, s)
    ensures Sized(k) && (k.sems[s].count < 0 <==> k.sems[s].queue != [])
    ensures k.procs[k.currpid].state == CURR
    ensures k.sems[s].queue != [] ==>
              var x := k.sems[s].queue[0];
              && IsPid(x) && Base(SetSem(k, s, Sem(true, k.sems[s].count + 1, k.sems[s].queue[1..])), x)
              && k.procs[x].state == WAIT
  {
    hide ByPriority, NullOK, Urgent, Base;
    InvSized(k);
    assert SemOK(k.sems[s]);
    if k.sems[s].queue != [] {
      InvIsBut(k, s);
      DequeueHole(k, s, Sem(true, k.sems[s].count + 1, k.sems[s].queue[1..]));
    }
  }

  lemma HoleFacts(k: Kernel, p: Pid)
    requires Base(k, p) && IsPid(p) && k.procs[p].state != FREE
    ensures Sized(k) && Nowhere(k, p) && k.procs[p].prio > MINKEY && k.ndefers >= 0
  {
    assert PrioOK(k, p);
  }

  lemma JoinCurrent(k: Kernel, p: Pid)
    requires Sized(k) && IsPid(p) && p != k.currpid
    ensures
      var k1 := Insert(SetState(k, p, READY), p);
      k1.currpid == k.currpid && k1.procs[k1.currpid] == k.procs[k.currpid] && k1.ndefers == k.ndefers
  {
  }

  lemma DefersLeft(k: Kernel, k1: Kernel)
    requires Base(k, NOHOLE) && k.ndefers > 0 && k1 == k.(ndefers := k.ndefers - 1)
    ensures Base(k1, NOHOLE)
  {
    BaseSized(k);
    BaseFrame(k, k1);
  }

  lemma BootRep(t: seq<QEntry>, lists: seq<seq<Pid>>, procs: seq<Proc>, sems: seq<SemEntry>)
    requires |t| == NQENT && |lists| == NSEM + 2 && |sems| == NSEM && (forall j :: 0 <= j < |lists| ==> lists[j] == [])
    requires procs == Boot().procs && forall s :: 0 <= s < NSEM ==> sems[s] == SemEntry(false, 0, Head(s))
    ensures Rep(t, lists, procs, sems, Boot())
  {
    forall s | 0 <= s < NSEM ensures SemAt(lists, sems, Boot(), s) { }
    assert Sleepers(t, lists[SLEEPQ]) == [];
    assert Pids([]) == [];
  }

  /** Rep does not depend on the scalars of the kernel. */
  lemma RepScalars(t: seq<QEntry>, lists: seq<seq<Pid>>, procs: seq<Proc>, sems: seq<SemEntry>, k: Kernel, k': Kernel)
    requires Rep(t, lists, procs, sems, k) && Sized(k')
    requires k'.procs == k.procs && k'.ready == k.ready && k'.sleepq == k.sleepq && k'.sems == k.sems
    ensures Rep(t, lists, procs, sems, k')
  {
    KeysSelf(t);
    RepFrame(t, t, lists, procs, sems, k, k', procs);
  }

  lemma InsertScalars(k: Kernel, p: Pid)
    requires Sized(k) && IsPid(p)
    ensures
      var k' := Insert(SetState(k, p, READY), p);
      && k' == k.(procs := k'.procs, ready := k'.ready) && Sized(k')
  {
  }

  lemma DropFirst(l: seq<Pid>)
    requires l != []
    ensures Drop(l, 0) == l[1..]
  {
  }

  lemma MidtickNot(s: set<Pid>, p: Pid)
    ensures p !in s ==> s - {p} == s
  {
  }

  lemma KeysSelf(t: seq<QEntry>)
    ensures KeysBut(t, t, EMPTY)
  {
  }

  /** firstkey: the key of the first entry, or MINKEY. */
  lemma FirstKey(t: seq<QEntry>, lists: seq<seq<Pid>>, j: int)
    requires TableOK(t, lists) && 0 <= j < |lists|
    ensures |t| == NQENT && 0 <= Head(j) < |t| && 0 <= t[Head(j)].qnext < |t|
    ensures t[Head(j)].qnext == if lists[j] == [] then Tail(j) else lists[j][0]
    ensures lists[j] == [] ==> t[t[Head(j)].qnext].qkey == MINKEY
    ensures t[Head(j)].qnext < NPROC <==> lists[j] != []
  {
    NodesLinked(t, lists, j, 0);
  }

  lemma PrioRange(k: Kernel)
    requires Base(k, NOHOLE) && k.procs[k.currpid].state == CURR
    ensures k.procs[k.currpid].prio > MINKEY
  {
    assert PrioOK(k, k.currpid);
  }

  lemma HoleOf(k: Kernel)
    requires Base(k, NOHOLE) && k.procs[k.currpid].state == CURR
    ensures Nowhere(k, k.currpid)
  {
    AsHole(k, k.currpid);
  }

  lemma InsertNonempty(k: Kernel)
    requires Sized(k)
    ensures Insert(SetState(k, k.currpid, READY), k.currpid).ready != []
  {
  }
}
