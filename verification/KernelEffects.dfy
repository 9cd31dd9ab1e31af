/** What single kernel calls do to the process they are about, and that they leave all others as they were.  Who of
    the ready processes runs is the matter of `KernelRuns` and `KernelRobin`. */
module KernelEffects {
  import opened KernelState
  import opened KernelSafety
  import opened KernelRuns
  import opened KernelSleep
  import opened Sequences

  /** Process `p` is now in state `st`; all others are as they were, up to being ready or running. */
  ghost predicate Moves(k: Kernel, k': Kernel, p: Pid, st: PrState)
    requires Sized(k) && Sized(k') && IsPid(p)
  {
    && k'.procs[p].state == st && k'.procs[p].prio == k.procs[p].prio
    && forall q :: q != p ==> Woke(k, k', [], q)
  }

  /** A rescheduling after `p` has gone into a state in which it cannot run. */
  lemma RestMoves(k: Kernel, k1: Kernel, k': Kernel, p: Pid, st: PrState)
    requires Sized(k) && Sized(k1) && Sized(k') && IsPid(p) && !Active(st)
    requires k1.procs == k.procs[p := k1.procs[p]] && k1.procs[p].state == st && k1.procs[p].prio == k.procs[p].prio
    requires SameRest(k1, k')
    ensures Moves(k, k', p, st)
  {
    assert SameProc(k1, k', p);
    forall q | q != p ensures Woke(k, k', [], q) { assert SameProc(k1, k', q); }
  }

  lemma RestSelf(k: Kernel)
    requires Sized(k)
    ensures SameRest(k, k)
  {
    forall p ensures SameProc(k, k, p) { }
  }

  /** Who is in no state with a queue is on no queue. */
  lemma NoHome(k: Kernel, p: Pid)
    requires Base(k, NOHOLE) && IsPid(p)
    requires k.procs[p].state in {FREE, SUSP, RECV, CURR}
    ensures Nowhere(k, p)
  {
    hide ByPriority, NullOK;
    HomeOf(k, p);
    forall s ensures WaitsNot(k, p, s) { assert WaitsIff(k, p, s); }
  }

  lemma InvNoHome(k: Kernel, p: Pid)
    requires Inv(k) && IsPid(p) && k.procs[p].state in {FREE, SUSP, RECV, CURR}
    ensures Nowhere(k, p)
  {
    NoHome(k, p);
  }

  // ---------- kill ----------

  /** kill: in whatever state the process was, it is free afterwards and on no queue, even if it has killed itself
      while rescheduling is deferred; every other process keeps its priority, and its state up to being ready or
      running. */
  lemma KillFrees(k: Kernel, p: Pid)
    requires Inv(k) && IsPid(p) && p != NULLPROC && k.procs[p].state != FREE
    ensures Sized(Kill(k, p)) && Moves(k, Kill(k, p), p, FREE) && Nowhere(Kill(k, p), p)
    ensures p !in Kill(k, p).midtick
    ensures k.procs[p].state != WAIT ==> Kill(k, p).sems == k.sems
  {
    hide Inv, Base, Resched, RemoveD, Without, Nowhere, SameRest, Moves;
    InvSized(k);
    if k.procs[p].state == CURR {
      KillSelf(k, p);
    } else {
      KillRest(k, p);
      CurrentHere(k);
      KillKeeps(k, p);
      InvNoHome(Kill(k, p), p);
    }
  }

  lemma KillRest(k: Kernel, p: Pid)
    requires Sized(k) && IsPid(p) && p != NULLPROC && k.procs[p].state != FREE && k.procs[p].state != CURR
    ensures Sized(Kill(k, p)) && Moves(k, Kill(k, p), p, FREE) && p !in Kill(k, p).midtick
    ensures k.procs[p].state != WAIT ==> Kill(k, p).sems == k.sems
  {
    hide RemoveD, Without;
    assert Kill(k, p).procs == SetState(k, p, FREE).procs;
    forall q | q != p ensures Woke(k, Kill(k, p), [], q) { }
  }

  lemma KillSelf(k: Kernel, p: Pid)
    requires Inv(k) && IsPid(p) && p != NULLPROC && k.procs[p].state == CURR
    ensures Sized(Kill(k, p)) && Moves(k, Kill(k, p), p, FREE) && Nowhere(Kill(k, p), p)
    ensures p !in Kill(k, p).midtick && Kill(k, p).sems == k.sems
  {
    hide Inv, Base, Resched, Nowhere, SameRest, Moves;
    InvSized(k);
    CurrIsCurrent(k, p);
    var f := SetState(k, p, FREE).(midtick := k.midtick - {p});
    if k.ndefers > 0 {
      NoDefersKept(f);
      RestSelf(f.(attempt := true));
      RestMoves(k, f.(attempt := true), f.(attempt := true), p, FREE);
      InvNoHome(k, p);
      NowhereSame(k, f.(attempt := true), p);
    } else {
      ParkRest(k, f, FREE);
      RestMoves(k, f, Resched(f), p, FREE);
      RestSems(f, Resched(f));
      KillKeeps(k, p);
      MovesState(k, Kill(k, p), p, FREE);
      InvNoHome(Kill(k, p), p);
      ReschedMidtick(f);
    }
  }

  lemma ReschedMidtick(k: Kernel)
    requires Sized(k)
    ensures Resched(k).midtick <= k.midtick
  {
  }

  lemma MovesState(k: Kernel, k': Kernel, p: Pid, st: PrState)
    requires Sized(k) && Sized(k') && IsPid(p) && Moves(k, k', p, st)
    ensures k'.procs[p].state == st
  {
  }

  lemma RestSems(k: Kernel, k': Kernel)
    requires Sized(k) && Sized(k') && SameRest(k, k')
    ensures k'.sems == k.sems && k'.sleepq == k.sleepq
  {
  }

  lemma NowhereSame(k: Kernel, k': Kernel, p: Pid)
    requires Sized(k) && Sized(k') && Nowhere(k, p)
    requires k'.ready == k.ready && k'.sleepq == k.sleepq && k'.sems == k.sems
    ensures Nowhere(k', p)
  {
    forall s ensures WaitsNot(k', p, s) { assert WaitsNot(k, p, s); }
  }

  /** The current process leaves for a state without a queue. */
  lemma ParkRest(k: Kernel, k1: Kernel, st: PrState)
    requires Inv(k) && k.currpid != NULLPROC && k.ndefers == 0 && (st == SUSP || st == RECV || st == FREE)
    requires k1 == SetState(k, k.currpid, st).(midtick := k1.midtick)
    ensures SameRest(k1, Resched(k1))
  {
    hide Placed, ByPriority, NullOK, Urgent, Resched, SameRest;
    InvSized(k);
    AsHole(k, k.currpid);
    FillHole(k, k.currpid, st);
    BaseFrame(SetState(k, k.currpid, st), k1);
    ReschedRest(k1);
  }

  // ---------- suspend, resume, create ----------

  /** suspend: a ready or running process is suspended, on no queue, and no semaphore or sleeper is touched. */
  lemma SuspendStops(k: Kernel, p: Pid)
    requires Inv(k) && IsPid(p) && p != NULLPROC && Active(k.procs[p].state) && Allowed(k, CSuspend(p))
    ensures Sized(Suspend(k, p)) && Moves(k, Suspend(k, p), p, SUSP) && Nowhere(Suspend(k, p), p)
    ensures Suspend(k, p).sems == k.sems && Suspend(k, p).sleepq == k.sleepq
  {
    hide Inv, Base, Resched, Without, Nowhere, SameRest, Moves;
    InvSized(k);
    SuspendKeeps(k, p);
    if k.procs[p].state == CURR {
      CurrIsCurrent(k, p);
      var f := SetState(k, p, SUSP);
      ParkRest(k, f, SUSP);
      RestMoves(k, f, Resched(f), p, SUSP);
      RestSems(f, Resched(f));
    } else {
      RestSelf(Suspend(k, p));
      RestMoves(k, Suspend(k, p), Suspend(k, p), p, SUSP);
    }
    MovesState(k, Suspend(k, p), p, SUSP);
    InvNoHome(Suspend(k, p), p);
  }

  /** resume: a suspended process becomes ready or running, and no other process, semaphore or sleeper changes. */
  lemma ResumeStarts(k: Kernel, p: Pid)
    requires Inv(k) && IsPid(p) && k.procs[p].state == SUSP
    ensures Sized(Resume(k, p)) && Wakes(k, Resume(k, p), [p])
    ensures Resume(k, p).sems == k.sems && Resume(k, p).sleepq == k.sleepq
  {
    hide Placed, ByPriority, NullOK, Urgent, Ready, SameRest, Wakes;
    InvSized(k);
    AsHole(k, p);
    ReadyRest(k, p);
    RestWakes(k, k, Ready(k, p), p);
    RestSems(SetState(k, p, READY), Ready(k, p));
  }

  /** The arrival of a message: a process that waits for one, with a time limit or not, becomes ready or running. */
  lemma DeliverStarts(k: Kernel, p: Pid)
    requires Inv(k) && IsPid(p) && k.procs[p].state in {RECV, RECTIM}
    ensures Sized(Deliver(k, p)) && Wakes(k, Deliver(k, p), [p]) && Deliver(k, p).sems == k.sems
  {
    hide Placed, ByPriority, NullOK, Urgent, Ready, SameRest, Wakes, RemoveD;
    InvSized(k);
    var k1 := if k.procs[p].state == RECV then k else k.(sleepq := RemoveD(k.sleepq, p));
    if k.procs[p].state == RECV { AsHole(k, p); } else { UnsleepHole(k, p); }
    ReadyRest(k1, p);
    RestWakes(k, k1, Ready(k1, p), p);
    RestSems(SetState(k1, p, READY), Ready(k1, p));
  }

  /** create: a free entry becomes a suspended process of the given priority, on no queue; nothing else changes. */
  lemma CreateSuspended(k: Kernel, p: Pid, prio: int)
    requires Inv(k) && IsPid(p) && k.procs[p].state == FREE && prio >= 1
    ensures
      var k' := Create(k, p, prio);
      && Sized(k') && k'.procs[p].state == SUSP && k'.procs[p].prio == prio && Nowhere(k', p)
      && (forall q :: IsPid(q) && q != p ==> k'.procs[q] == k.procs[q])
      && k' == k.(procs := k'.procs)
  {
    hide Inv, Nowhere;
    InvSized(k);
    CreateKeeps(k, p, prio);
    InvNoHome(Create(k, p, prio), p);
  }

  // ---------- Blocking calls ----------

  /** receive without a message: the caller waits for one, on no queue. */
  lemma ReceiveBlocks(k: Kernel)
    requires Inv(k) && Allowed(k, CReceive)
    ensures
      var k' := Receive(k);
      && Sized(k) && Sized(k') && Moves(k, k', k.currpid, RECV) && Nowhere(k', k.currpid)
      && k'.currpid != k.currpid && k'.sems == k.sems && k'.sleepq == k.sleepq
  {
    hide Inv, Base, Resched, Nowhere, SameRest, Moves;
    InvSized(k);
    var f := SetState(k, k.currpid, RECV);
    ParkKeeps(k, f, RECV);
    ParkRest(k, f, RECV);
    RestMoves(k, f, Resched(f), k.currpid, RECV);
    RestSems(f, Resched(f));
    MovesState(k, Receive(k), k.currpid, RECV);
    InvSized(Receive(k));
    InvNoHome(Receive(k), k.currpid);
  }

  /** sleepms and recvtime: the caller is on the sleep queue with its whole delay, and the other sleepers keep
      theirs. */
  lemma SleepBlocks(k: Kernel, delay: int, st: PrState, r: Pid)
    requires Inv(k) && k.currpid != NULLPROC && k.ndefers == 0 && delay >= 0 && Asleep(st)
    ensures
      var k' := SleepAs(k, delay, st);
      && Sized(k) && Sized(k') && Moves(k, k', k.currpid, st) && k'.currpid != k.currpid && k'.sems == k.sems
      && Sleeps(k'.sleepq, k.currpid) && Due(k'.sleepq, k.currpid) == delay
      && (r != k.currpid && Sleeps(k.sleepq, r) ==> Sleeps(k'.sleepq, r) && Due(k'.sleepq, r) == Due(k.sleepq, r))
  {
    hide Base, Resched, SameRest, Moves, InsertD, Sleeps, Due, Running;
    InvSized(k);
    CurrentAwake(k);
    var f := SetState(k, k.currpid, st).(sleepq := InsertD(k.sleepq, k.currpid, delay));
    JoinSleep(k, delay, st);
    ReschedRest(f);
    RestMoves(k, f, Resched(f), k.currpid, st);
    RestSems(f, Resched(f));
    MovesState(k, Resched(f), k.currpid, st);
    SleepAsKeeps(k, delay, st);
    InvSized(SleepAs(k, delay, st));
    InsertDDue(k.sleepq, k.currpid, delay, r);
  }

  /** wait on a semaphore without a count left: the caller goes behind all who wait. */
  lemma WaitBlocks(k: Kernel, s: int)
    requires Inv(k) && GoodSem(k, s) && k.sems[s].count <= 0 && Allowed(k, CWait(s))
    ensures
      var k' := Wait(k, s);
      && Sized(k) && Sized(k') && Moves(k, k', k.currpid, WAIT) && k'.currpid != k.currpid && k'.sleepq == k.sleepq
      && k'.sems == k.sems[s := Sem(true, k.sems[s].count - 1, k.sems[s].queue + [k.currpid])]
      && k'.procs[k.currpid].sem == s
  {
    hide Base, Resched, SameRest, Moves, Running, SemsOK;
    InvSized(k);
    var sem := k.sems[s];
    var k1 := SetSem(k, s, sem.(count := sem.count - 1, queue := sem.queue + [k.currpid]));
    var f := k1.(procs := k1.procs[k.currpid := k1.procs[k.currpid].(state := WAIT, sem := s)]);
    JoinSem(k, f, s);
    ReschedRest(f);
    RestMoves(k, f, Resched(f), k.currpid, WAIT);
    RestSems(f, Resched(f));
    MovesState(k, Resched(f), k.currpid, WAIT);
    RestSem(f, Resched(f), k.currpid);
    WaitKeeps(k, s);
    InvSized(Wait(k, s));
  }

  /** wait with a count left takes one, and the caller goes on. */
  lemma WaitTakes(k: Kernel, s: int)
    requires Inv(k) && GoodSem(k, s) && k.sems[s].count > 0
    ensures Sized(k) && Wait(k, s) == k.(sems := k.sems[s := Sem(true, k.sems[s].count - 1, [])])
  {
    hide Base, Running, DelaysOK, Resched;
    InvSized(k);
    assert SemOK(k.sems[s]);
  }

  lemma RestSem(k: Kernel, k': Kernel, p: Pid)
    requires Sized(k) && Sized(k') && SameRest(k, k') && IsPid(p)
    ensures k'.procs[p].sem == k.procs[p].sem
  {
    assert SameProc(k, k', p);
  }

  // ---------- semcreate ----------

  function Round(s: int, d: int): int {
    (s + d) % NSEM
  }

  lemma RoundNext(s: int, d: int)
    requires 0 <= s < NSEM && 0 <= d
    ensures Round((s + 1) % NSEM, d) == Round(s, d + 1)
  {
  }

  /** Going round from `next` on, entry `d` is the first one that is free. */
  ghost predicate FirstFree(sems: seq<Sem>, next: int, d: int)
    requires |sems| == NSEM
  {
    0 <= d && !sems[Round(next, d)].used && forall j :: 0 <= j < d ==> sems[Round(next, j)].used
  }

  lemma FirstFreeNext(sems: seq<Sem>, next: int, d: int)
    requires |sems| == NSEM && 0 <= next < NSEM && sems[next].used && FirstFree(sems, (next + 1) % NSEM, d)
    ensures FirstFree(sems, next, d + 1)
  {
    RoundNext(next, d);
    forall j | 0 <= j < d + 1 ensures sems[Round(next, j)].used {
      if j > 0 { RoundNext(next, j - 1); }
    }
  }

  lemma {:induction false} FindSemFirst(sems: seq<Sem>, next: int, left: nat)
    requires |sems| == NSEM && 0 <= next < NSEM
    ensures
      var r := FindSem(sems, next, left);
      if r == -1 then forall d :: 0 <= d < left ==> sems[Round(next, d)].used
      else exists d :: 0 <= d < left && FirstFree(sems, next, d) && r == Round(next, d)
    decreases left
  {
    if left > 0 && sems[next].used {
      var after := (next + 1) % NSEM;
      FindSemFirst(sems, after, left - 1);
      forall d | 0 <= d ensures Round(after, d) == Round(next, d + 1) { RoundNext(next, d); }
      if FindSem(sems, after, left - 1) == -1 {
        forall d | 0 <= d < left ensures sems[Round(next, d)].used {
          if d > 0 { assert Round(after, d - 1) == Round(next, d); }
        }
      } else {
        var d :| 0 <= d < left - 1 && FirstFree(sems, after, d) && FindSem(sems, after, left - 1) == Round(after, d);
        FirstFreeNext(sems, next, d);
        assert FirstFree(sems, next, d + 1) && Round(after, d) == Round(next, d + 1);
      }
    } else if left > 0 {
      assert FirstFree(sems, next, 0) && Round(next, 0) == next;
    }
  }

  /** semcreate: the first free entry going round from `nextsem` becomes a semaphore with the given count and nobody
      waiting, and nothing else changes but where the next search starts; it fails exactly for a negative count or
      if all entries are in use. */
  lemma SemCreateGives(k: Kernel, count: int)
    requires Inv(k)
    ensures
      var k' := SemCreate(k, count);
      && Sized(k)
      && (count < 0 || (forall s :: 0 <= s < NSEM ==> k.sems[s].used) ==> k' == k)
      && (count >= 0 && (exists s :: 0 <= s < NSEM && !k.sems[s].used) ==>
            exists d :: 0 <= d < NSEM && FirstFree(k.sems, k.nextsem, d)
              && var s := Round(k.nextsem, d);
                 k' == k.(sems := k.sems[s := Sem(true, count, [])], nextsem := Round(s, 1)))
  {
    hide FindSem, Base, Running, DelaysOK;
    InvSized(k);
    FindSemFirst(k.sems, k.nextsem, NSEM);
    if s :| 0 <= s < NSEM && !k.sems[s].used {
      var d := (s - k.nextsem) % NSEM;
      assert Round(k.nextsem, d) == s;
      assert FindSem(k.sems, k.nextsem, NSEM) != -1;
      assert SemOK(k.sems[FindSem(k.sems, k.nextsem, NSEM)]);
    }
  }

  // ---------- The other semaphores ----------

  /** Call `c` is about semaphore `t`. */
  predicate About(k: Kernel, c: Call, t: int)
    requires Sized(k) && 0 <= t < NSEM
  {
    match c
    case CWait(s) => s == t
    case CSignal(s) => s == t
    case CSignalN(s, _) => s == t
    case CSemCreate(_) => !k.sems[t].used
    case CSemDelete(s) => s == t
    case CSemReset(s, _) => s == t
    case CKill(p) => IsPid(p) && k.procs[p].state == WAIT && k.procs[p].sem == t
    case _ => false
  }

  lemma ReschedSems(k: Kernel)
    requires Sized(k)
    ensures Resched(k).sems == k.sems
  {
  }

  lemma StopSems(k: Kernel)
    requires Sized(k)
    ensures DeferStop(k).sems == k.sems
  {
    hide Resched;
    if k.ndefers > 0 { ReschedSems(k.(ndefers := 0)); }
  }

  lemma {:induction false} SignalLoopElsewhere(k: Kernel, s: int, n: nat, t: int)
    requires Sized(k) && 0 <= s < NSEM && 0 <= t < NSEM && t != s
    ensures SignalLoop(k, s, n).sems[t] == k.sems[t]
    decreases n
  {
    hide Ready;
    if n > 0 {
      SignalElsewhere(k, s, t);
      SignalLoopElsewhere(SignalOne(k, s), s, n - 1, t);
    }
  }

  lemma SignalElsewhere(k: Kernel, s: int, t: int)
    requires Sized(k) && 0 <= s < NSEM && 0 <= t < NSEM && t != s
    ensures SignalOne(k, s).sems[t] == k.sems[t]
  {
    hide Ready;
    var sem := k.sems[s];
    if sem.count < 0 && sem.queue != [] && IsPid(sem.queue[0]) {
      SemsReady(SetSem(k, s, sem.(count := sem.count + 1, queue := sem.queue[1..])), sem.queue[0]);
    }
  }

  lemma {:induction false} ReadyAllElsewhere(k: Kernel, s: int, countUp: bool, t: int)
    requires Sized(k) && 0 <= s < NSEM && 0 <= t < NSEM && t != s
    ensures ReadyAll(k, s, countUp).sems[t] == k.sems[t]
    decreases |k.sems[s].queue|
  {
    hide Ready;
    var sem := k.sems[s];
    if sem.queue != [] && IsPid(sem.queue[0]) {
      var k1 := SetSem(k, s, sem.(queue := sem.queue[1..], count := if countUp then sem.count + 1 else sem.count));
      SemsReady(k1, sem.queue[0]);
      ReadyAllElsewhere(Ready(k1, sem.queue[0]), s, countUp, t);
    }
  }

  lemma {:induction false} WakeLoopSems(k: Kernel)
    requires Sized(k)
    ensures WakeLoop(k).sems == k.sems
    decreases |k.sleepq|
  {
    hide Ready;
    if k.sleepq != [] && k.sleepq[0].key <= 0 && IsPid(k.sleepq[0].pid) {
      var k1 := k.(sleepq := k.sleepq[1..]);
      SleepReady(k1, k.sleepq[0].pid);
      SemsReady(k1, k.sleepq[0].pid);
      WakeLoopSems(Ready(k1, k.sleepq[0].pid));
    }
  }

  lemma TickSems(k: Kernel)
    requires Sized(k)
    ensures Sized(Tick(k)) && Tick(k).sems == k.sems
  {
    hide Resched, WakeLoop, DeferStop;
    if k.sleepq != [] && k.sleepq[0].key <= 1 {
      var k1 := k.(sleepq := [k.sleepq[0].(key := k.sleepq[0].key - 1)] + k.sleepq[1..]);
      WakeLoopSems(DeferStart(k1));
      StopSems(WakeLoop(DeferStart(k1)));
    }
    ReschedSems(TickSleepers(k).(preempt := QUANTUM));
  }

  lemma SignalNElsewhere(k: Kernel, s: int, n: int, t: int)
    requires Sized(k) && 0 <= t < NSEM && t != s
    ensures Sized(SignalN(k, s, n)) && SignalN(k, s, n).sems[t] == k.sems[t]
  {
    hide SignalLoop, DeferStop;
    if GoodSem(k, s) && n >= 0 {
      SignalLoopElsewhere(DeferStart(k), s, n, t);
      StopSems(SignalLoop(DeferStart(k), s, n));
    }
  }

  lemma SemDeleteElsewhere(k: Kernel, s: int, t: int)
    requires Sized(k) && 0 <= t < NSEM && t != s
    ensures Sized(SemDelete(k, s)) && SemDelete(k, s).sems[t] == k.sems[t]
  {
    hide ReadyAll, DeferStop;
    if GoodSem(k, s) {
      var k0 := DeferStart(SetSem(k, s, k.sems[s].(used := false)));
      ReadyAllElsewhere(k0, s, true, t);
      var k1 := ReadyAll(k0, s, true);
      StopSems(SetSem(k1, s, k1.sems[s].(count := k1.sems[s].count + 1)));
    }
  }

  lemma SemResetElsewhere(k: Kernel, s: int, count: int, t: int)
    requires Sized(k) && 0 <= t < NSEM && t != s
    ensures Sized(SemReset(k, s, count)) && SemReset(k, s, count).sems[t] == k.sems[t]
  {
    hide ReadyAll, DeferStop;
    if GoodSem(k, s) && count >= 0 {
      ReadyAllElsewhere(DeferStart(k), s, false, t);
      var k1 := ReadyAll(DeferStart(k), s, false);
      StopSems(SetSem(k1, s, k1.sems[s].(count := count)));
    }
  }

  lemma WaitElsewhere(k: Kernel, s: int, t: int)
    requires Sized(k) && 0 <= t < NSEM && t != s
    ensures Sized(Wait(k, s)) && Wait(k, s).sems[t] == k.sems[t]
  {
    hide Resched;
    if GoodSem(k, s) {
      var sem := k.sems[s];
      var k1 := SetSem(k, s, sem.(count := sem.count - 1, queue := sem.queue + [k.currpid]));
      ReschedSems(k1.(procs := k1.procs[k.currpid := k1.procs[k.currpid].(state := WAIT, sem := s)]));
    }
  }

  lemma WakeElsewhere(k: Kernel, p: Pid)
    requires Sized(k)
    ensures Sized(Resume(k, p)) && Resume(k, p).sems == k.sems && Sized(Deliver(k, p)) && Deliver(k, p).sems == k.sems
  {
    hide Ready, RemoveD;
    if !BadPid(k, p) {
      SemsReady(k, p);
      SemsReady(k.(sleepq := RemoveD(k.sleepq, p)), p);
    }
  }

  lemma StopElsewhere(k: Kernel, p: Pid, t: int)
    requires Sized(k) && 0 <= t < NSEM
    ensures Sized(Suspend(k, p)) && Suspend(k, p).sems == k.sems
    ensures Sized(Kill(k, p)) && (!About(k, CKill(p), t) ==> Kill(k, p).sems[t] == k.sems[t])
  {
    hide Resched, RemoveD, Without;
    if !BadPid(k, p) {
      ReschedSems(SetState(k, p, SUSP));
      ReschedSems(SetState(k, p, FREE).(midtick := k.midtick - {p}));
    }
  }

  lemma SleepElsewhere(k: Kernel, delay: int, st: PrState)
    requires Sized(k)
    ensures Sized(SleepAs(k, delay, st)) && SleepAs(k, delay, st).sems == k.sems
  {
    hide Resched, InsertD;
    ReschedSems(SetState(k, k.currpid, st).(sleepq := InsertD(k.sleepq, k.currpid, delay)));
  }

  /** A call changes no semaphore but the one that it is about. */
  lemma StepElsewhere(k: Kernel, c: Call, t: int)
    requires Sized(k) && 0 <= t < NSEM && !About(k, c, t)
    ensures Sized(Step(k, c)) && Step(k, c).sems[t] == k.sems[t]
  {
    hide SignalOne, SignalN, SemDelete, SemReset, FindSem, Resched, Tick, DeferStop, SleepAs, Suspend, Resume, Deliver,
        Kill, Wait;
    match c
    case CWait(s) => WaitElsewhere(k, s, t);
    case CSignal(s) => if GoodSem(k, s) { SignalElsewhere(k, s, t); }
    case CSignalN(s, n) => SignalNElsewhere(k, s, n, t);
    case CSemDelete(s) => SemDeleteElsewhere(k, s, t);
    case CSemReset(s, n) => SemResetElsewhere(k, s, n, t);
    case CSleep(d) => SleepElsewhere(k, d, SLEEP); ReschedSems(k);
    case CRecvTime(d) => SleepElsewhere(k, d, RECTIM);
    case CReceive => ReschedSems(SetState(k, k.currpid, RECV));
    case CDeliver(p) => WakeElsewhere(k, p);
    case CYield => ReschedSems(k);
    case CSuspend(p) => StopElsewhere(k, p, t);
    case CResume(p) => WakeElsewhere(k, p);
    case CKill(p) => StopElsewhere(k, p, t);
    case CTick => TickSems(k);
    case CDeferStop => StopSems(k);
    case _ =>
  }
}
