/** The life of a process: which calls take it from which state to which, and that nothing else does. */
module KernelLifecycle {
  import opened KernelState
  import opened KernelSafety
  import opened KernelRuns
  import opened KernelSlices
  import opened KernelEffects
  import opened Sequences

  /** The state in which a call leaves the process that it blocks. */
  function Blocked(c: Call): PrState {
    match c
    case CWait(_) => WAIT
    case CSleep(_) => SLEEP
    case CRecvTime(_) => RECTIM
    case CReceive => RECV
    case CSuspend(_) => SUSP
    case _ => FREE
  }

  /** The calls that can release a process waiting for semaphore `s`. */
  predicate Releases(c: Call, s: int) {
    match c
    case CSignal(t) => t == s
    case CSignalN(t, _) => t == s
    case CSemDelete(t) => t == s
    case CSemReset(t, _) => t == s
    case _ => false
  }

  /** The arrows of the state diagram: call `c` may take process `p` from state `a` to another state `b`. */
  predicate Arrow(k: Kernel, c: Call, p: Pid, a: PrState, b: PrState)
    requires Sized(k) && IsPid(p)
  {
    if a == FREE then c.CCreate? && c.p == p && b == SUSP
    else
      || (c == CKill(p) && b == FREE)
      || match a
         case SUSP => c == CResume(p) && Active(b)
         case RECV => c == CDeliver(p) && Active(b)
         case RECTIM => (c == CDeliver(p) || c == CTick) && Active(b)
         case SLEEP => c == CTick && Active(b)
         case WAIT => Releases(c, k.procs[p].sem) && Active(b)
         case _ => (c == CSuspend(p) && b == SUSP) || (p == k.currpid && Blocks(k, c) && b == Blocked(c))
  }

  /** Process `p` stays in its state, up to being ready or running, or goes along an arrow; it keeps its priority. */
  ghost predicate Follows(k: Kernel, k': Kernel, c: Call, p: Pid)
    requires Sized(k) && Sized(k')
  {
    IsPid(p) ==>
      var a, b := k.procs[p].state, k'.procs[p].state;
      && (a == b || (Active(a) && Active(b)) || Arrow(k, c, p, a, b))
      && (a == FREE || k'.procs[p].prio == k.procs[p].prio)
  }

  lemma SameFollows(k: Kernel, k': Kernel, c: Call, p: Pid)
    requires Sized(k) && Sized(k') && k'.procs == k.procs
    ensures Follows(k, k', c, p)
  {
  }

  lemma NoneFollows(k: Kernel, k': Kernel, c: Call, p: Pid)
    requires Sized(k) && Sized(k') && Wakes(k, k', [])
    ensures Follows(k, k', c, p)
  {
    assert Woke(k, k', [], p);
  }

  /** A call that puts one process into another state. */
  lemma MovesFollows(k: Kernel, k': Kernel, c: Call, x: Pid, st: PrState, p: Pid)
    requires Sized(k) && Sized(k') && IsPid(x) && Moves(k, k', x, st) && Arrow(k, c, x, k.procs[x].state, st)
    ensures Follows(k, k', c, p)
  {
    if p != x { assert Woke(k, k', [], p); }
  }

  /** A call that releases the first processes of a queue. */
  lemma ReleaseFollows(k: Kernel, k': Kernel, c: Call, s: int, n: int, p: Pid)
    requires Inv(k) && Sized(k') && 0 <= s < NSEM && Releases(c, s) && 0 <= n <= |k.sems[s].queue|
    requires Wakes(k, k', k.sems[s].queue[..n])
    ensures Follows(k, k', c, p)
  {
    hide ByPriority, NullOK, Running, SemsOK, DelaysOK;
    assert Woke(k, k', k.sems[s].queue[..n], p);
    if IsPid(p) && p in k.sems[s].queue[..n] {
      assert p in k.sems[s].queue;
      HomeOf(k, p);
      assert WaitsIff(k, p, s);
    }
  }

  lemma ReleaseAllFollows(k: Kernel, k': Kernel, c: Call, s: int, p: Pid)
    requires Inv(k) && Sized(k') && 0 <= s < NSEM && Releases(c, s) && Wakes(k, k', k.sems[s].queue)
    ensures Follows(k, k', c, p)
  {
    hide Inv, Wakes, Follows;
    InvSized(k);
    var q := k.sems[s].queue;
    assert q[..|q|] == q;
    ReleaseFollows(k, k', c, s, |q|, p);
  }

  lemma WakeFollows(k: Kernel, k': Kernel, c: Call, x: Pid, p: Pid)
    requires Sized(k) && Sized(k') && IsPid(x) && Wakes(k, k', [x])
    requires forall b :: Active(b) ==> Arrow(k, c, x, k.procs[x].state, b)
    ensures Follows(k, k', c, p)
  {
    assert Woke(k, k', [x], p);
  }

  // ---------- Ticks ----------

  ghost predicate AllAsleep(k: Kernel, w: seq<Pid>)
    requires Sized(k)
  {
    forall i :: 0 <= i < |w| ==> IsPid(w[i]) && Asleep(k.procs[w[i]].state)
  }

  /** The first sleeper is woken. */
  lemma WakeOneWakes(k: Kernel)
    requires InvTail(k) && k.sleepq != []
    ensures IsPid(k.sleepq[0].pid) && AllAsleep(k, [k.sleepq[0].pid])
    ensures Wakes(k, Ready(k.(sleepq := k.sleepq[1..]), k.sleepq[0].pid), [k.sleepq[0].pid])
  {
    hide ByPriority, NullOK, Urgent, Ready, Wakes;
    TailSized(k);
    WakeOne(k);
    var p := k.sleepq[0].pid;
    assert Pids(k.sleepq)[0] == p;
    HomeOf(k, p);
    RestWakes(k, k.(sleepq := k.sleepq[1..]), Ready(k.(sleepq := k.sleepq[1..]), p), p);
  }

  lemma AsleepBefore(k: Kernel, k1: Kernel, x: Pid, w: seq<Pid>)
    requires Sized(k) && Sized(k1) && Wakes(k, k1, [x]) && AllAsleep(k, [x]) && AllAsleep(k1, w)
    ensures AllAsleep(k, [x] + w)
  {
    var w' := [x] + w;
    forall i | 0 <= i < |w'| ensures IsPid(w'[i]) && Asleep(k.procs[w'[i]].state) {
      assert Woke(k, k1, [x], w'[i]);
      assert i == 0 || w'[i] == w[i - 1];
      assert [x][0] == x;
    }
  }

  lemma {:induction false} WakeLoopWakes(k: Kernel) returns (w: seq<Pid>)
    requires InvTail(k)
    ensures Sized(k) && AllAsleep(k, w) && Wakes(k, WakeLoop(k), w)
    decreases |k.sleepq|
  {
    hide InvTail, Inv, Ready, Wakes, AllAsleep;
    TailSized(k);
    w := [];
    if k.sleepq != [] && k.sleepq[0].key <= 0 {
      WakeOne(k);
      WakeOneWakes(k);
      var p := k.sleepq[0].pid;
      var k' := Ready(k.(sleepq := k.sleepq[1..]), p);
      InvIsTail(k');
      w := WakeLoopWakes(k');
      AsleepBefore(k, k', p, w);
      WakesThen(k, k', WakeLoop(k), [p], w);
      w := [p] + w;
    } else {
      WakesNone(k, k);
      NoneAsleep(k);
    }
  }

  lemma NoneAsleep(k: Kernel)
    requires Sized(k)
    ensures AllAsleep(k, [])
  {
  }

  lemma AsleepSame(k: Kernel, k': Kernel, w: seq<Pid>)
    requires Sized(k) && Sized(k') && k'.procs == k.procs && AllAsleep(k', w)
    ensures AllAsleep(k, w)
  {
  }

  lemma SleepersWakes(k: Kernel) returns (w: seq<Pid>)
    requires Inv(k)
    ensures Sized(k) && AllAsleep(k, w) && Wakes(k, TickSleepers(k), w)
  {
    hide Inv, InvTail, DeferStop, DeferStart, WakeLoop, Wakes, AllAsleep;
    InvSized(k);
    w := [];
    NoneAsleep(k);
    if k.sleepq == [] || k.sleepq[0].key > 1 {
      WakesNone(k, TickSleepers(k));
    } else {
      var k1 := k.(sleepq := [k.sleepq[0].(key := k.sleepq[0].key - 1)] + k.sleepq[1..]);
      Decremented(k);
      DeferTail(k1);
      DeferStarted(k1);
      StartSame(k1);
      var k2 := DeferStart(k1);
      WakesNone(k, k2);
      w := WakeLoopWakes(k2);
      AsleepSame(k, k2, w);
      WakeLoopKeeps(k2);
      StopRest(WakeLoop(k2));
      WakesThen(k, k2, WakeLoop(k2), [], w);
      assert [] + w == w && w + [] == w;
      WakesThen(k, WakeLoop(k2), DeferStop(WakeLoop(k2)), w, []);
    }
  }

  lemma YieldWakes(k: Kernel, k1: Kernel)
    requires Inv(k) && k1 == k.(preempt := k1.preempt) && k1.preempt >= 1
    ensures Sized(k) && Wakes(k, Resched(k1), [])
  {
    hide Placed, ByPriority, NullOK, Urgent, Resched, Wakes, SameRest;
    InvSized(k);
    BaseFrame(k, k1);
    ReschedRest(k1);
    WakesNone(k1, Resched(k1));
    WakesNone(k, k1);
    WakesThen(k, k1, Resched(k1), [], []);
    var none: seq<Pid> := [];
    assert none + none == none;
  }

  lemma TickFollows(k: Kernel, p: Pid)
    requires Inv(k)
    ensures Sized(k) && Follows(k, Tick(k), CTick, p)
  {
    hide Inv, Resched, TickSleepers, Wakes, AllAsleep;
    InvSized(k);
    var w := SleepersWakes(k);
    TickSleepersKeeps(k);
    var k1 := TickSleepers(k);
    if k1.currpid == k.currpid && k1.preempt - 1 <= 0 {
      YieldWakes(k1, k1.(preempt := QUANTUM));
    } else {
      WakesNone(k1, Tick(k));
    }
    WakesThen(k, k1, Tick(k), w, []);
    assert w + [] == w;
    AsleepFollows(k, Tick(k), w, p);
  }

  lemma AsleepFollows(k: Kernel, k': Kernel, w: seq<Pid>, p: Pid)
    requires Sized(k) && Sized(k') && AllAsleep(k, w) && Wakes(k, k', w)
    ensures Follows(k, k', CTick, p)
  {
    assert Woke(k, k', w, p);
  }

  // ---------- Every call ----------

  lemma SemFollows(k: Kernel, c: Call, p: Pid)
    requires Inv(k) && Allowed(k, c)
    requires c.CWait? || c.CSignal? || c.CSignalN? || c.CSemCreate? || c.CSemDelete? || c.CSemReset?
    ensures Sized(k) && Follows(k, Step(k, c), c, p)
  {
    hide Inv, Wakes, Moves, SignalN, SemDelete, SemReset, SignalOne, FindSem, Resched, Follows;
    InvSized(k);
    SameFollows(k, k, c, p);
    match c
    case CWait(s) =>
      if GoodSem(k, s) && k.sems[s].count <= 0 {
        WaitBlocks(k, s);
        MovesFollows(k, Wait(k, s), c, k.currpid, WAIT, p);
      } else {
        SameFollows(k, Wait(k, s), c, p);
      }
    case CSignal(s) =>
      if GoodSem(k, s) {
        SignalOneWakes(k, s);
        var q := k.sems[s].queue;
        if q == [] { NoneFollows(k, SignalOne(k, s), c, p); } else {
          assert q[..1] == [q[0]];
          ReleaseFollows(k, SignalOne(k, s), c, s, 1, p);
        }
      }
    case CSignalN(s, n) =>
      if GoodSem(k, s) && n >= 0 {
        SignalNKeeps(k, s, n);
        InvSized(SignalN(k, s, n));
        SignalNWakesFirst(k, s, n);
        ReleaseFollows(k, SignalN(k, s, n), c, s, Min(n, |k.sems[s].queue|), p);
      } else {
        CallsFail(k, s, n);
      }
    case CSemCreate(n) => SameFollows(k, SemCreate(k, n), c, p);
    case CSemDelete(s) =>
      if GoodSem(k, s) {
        SemDeleteKeeps(k, s);
        InvSized(SemDelete(k, s));
        SemDeleteWakesAll(k, s);
        ReleaseAllFollows(k, SemDelete(k, s), c, s, p);
      } else {
        CallsFail(k, s, 0);
      }
    case CSemReset(s, n) =>
      if GoodSem(k, s) && n >= 0 {
        SemResetKeeps(k, s, n);
        InvSized(SemReset(k, s, n));
        SemResetWakesAll(k, s, n);
        ReleaseAllFollows(k, SemReset(k, s, n), c, s, p);
      } else {
        CallsFail(k, s, n);
      }
  }

  lemma CallsFail(k: Kernel, s: int, n: int)
    requires Sized(k) && (!GoodSem(k, s) || n < 0)
    ensures SignalN(k, s, n) == k && SemReset(k, s, n) == k && (!GoodSem(k, s) ==> SemDelete(k, s) == k)
  {
  }

  lemma ProcessFollows(k: Kernel, c: Call, p: Pid)
    requires Inv(k) && Allowed(k, c)
    requires c.CDeliver? || c.CSuspend? || c.CResume? || c.CKill? || c.CCreate?
    ensures Sized(k) && Follows(k, Step(k, c), c, p)
  {
    hide Inv, Wakes, Moves, Resched, Ready, RemoveD, Without, Follows, Nowhere;
    InvSized(k);
    SameFollows(k, k, c, p);
    CurrentHere(k);
    match c
    case CDeliver(x) =>
      if !BadPid(k, x) && k.procs[x].state in {RECV, RECTIM} {
        DeliverStarts(k, x);
        WakeFollows(k, Deliver(k, x), c, x, p);
      }
    case CSuspend(x) =>
      if !BadPid(k, x) && x != NULLPROC && Active(k.procs[x].state) {
        SuspendStops(k, x);
        MovesFollows(k, Suspend(k, x), c, x, SUSP, p);
      }
    case CResume(x) =>
      if !BadPid(k, x) && k.procs[x].state == SUSP {
        ResumeStarts(k, x);
        WakeFollows(k, Resume(k, x), c, x, p);
      }
    case CKill(x) =>
      if !BadPid(k, x) && x != NULLPROC {
        KillFrees(k, x);
        MovesFollows(k, Kill(k, x), c, x, FREE, p);
      }
    case CCreate(x, prio) => CreateFollows(k, x, prio, p);
  }

  lemma CreateFollows(k: Kernel, x: Pid, prio: int, p: Pid)
    requires Sized(k)
    ensures Follows(k, Create(k, x, prio), CCreate(x, prio), p)
  {
  }

  /** The state diagram of a process: in every call, every process stays in its state, up to being ready or running,
      or goes along one of the arrows. */
  lemma StepFollows(k: Kernel, c: Call, p: Pid)
    requires Inv(k) && Allowed(k, c)
    ensures Sized(k) && Follows(k, Step(k, c), c, p)
  {
    hide Inv, Wakes, Moves, Resched, Tick, DeferStop, InsertD, Follows;
    InvSized(k);
    SameFollows(k, k, c, p);
    match c
    case CSleep(d) =>
      if d > 0 {
        SleepBlocks(k, d, SLEEP, p);
        MovesFollows(k, SleepAs(k, d, SLEEP), c, k.currpid, SLEEP, p);
      } else if d == 0 {
        InvBase(k);
        HasTick(k);
        YieldWakes(k, k);
        NoneFollows(k, Resched(k), c, p);
      }
    case CRecvTime(d) =>
      if d >= 0 {
        SleepBlocks(k, d, RECTIM, p);
        MovesFollows(k, SleepAs(k, d, RECTIM), c, k.currpid, RECTIM, p);
      }
    case CReceive =>
      ReceiveBlocks(k);
      MovesFollows(k, Receive(k), c, k.currpid, RECV, p);
    case CYield =>
      InvBase(k);
      HasTick(k);
      YieldWakes(k, k);
      NoneFollows(k, Resched(k), c, p);
    case CTick => TickFollows(k, p);
    case CDeferStart => SameFollows(k, DeferStart(k), c, p);
    case CDeferStop =>
      StopRest(k);
      NoneFollows(k, DeferStop(k), c, p);
    case CDeliver(_) => ProcessFollows(k, c, p);
    case CSuspend(_) => ProcessFollows(k, c, p);
    case CResume(_) => ProcessFollows(k, c, p);
    case CKill(_) => ProcessFollows(k, c, p);
    case CCreate(_, _) => ProcessFollows(k, c, p);
    case _ => SemFollows(k, c, p);
  }
}
