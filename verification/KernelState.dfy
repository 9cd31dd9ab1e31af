/** Processes, semaphores, the ready list and the sleep queue, as one state that every kernel call changes in
    one step up to the context switch (system/resched.c and the calls that use it).

    Queues are sequences here; module `QueueTables` shows how `queuetab` holds them. */
module KernelState {
  import opened Sequences

  const NPROC := 100
  const NSEM := 100
  const QUANTUM := 2
  const NULLPROC := 0

  type Pid = int

  datatype PrState = FREE | CURR | READY | RECV | SLEEP | SUSP | WAIT | RECTIM

  /** struct procent, as far as scheduling goes */
  datatype Proc = Proc(state: PrState, prio: int, sem: int)

  datatype Sem = Sem(used: bool, count: int, queue: seq<Pid>)

  /** An entry of the sleep queue: the delay is counted from the entry before it. */
  datatype Sleeper = Sleeper(pid: Pid, key: int)

  /** `midtick` holds the processes that lost the processor inside clkhandler, in the rescheduling of
      `wakeup`: the rest of clkhandler, the count of the time slice, runs when they run again. */
  datatype Kernel = Kernel(procs: seq<Proc>, ready: seq<Pid>, sleepq: seq<Sleeper>, sems: seq<Sem>,
                           currpid: Pid, ndefers: int, attempt: bool, preempt: int, nextsem: int, midtick: set<Pid>)

  predicate Sized(k: Kernel) {
    |k.procs| == NPROC && |k.sems| == NSEM && 0 <= k.currpid < NPROC && 0 <= k.nextsem < NSEM
  }

  predicate IsPid(p: Pid) {
    0 <= p < NPROC
  }

  /** isbadpid */
  predicate BadPid(k: Kernel, p: Pid)
    requires Sized(k)
  {
    !IsPid(p) || k.procs[p].state == FREE
  }

  function SetState(k: Kernel, p: Pid, st: PrState): (r: Kernel)
    requires Sized(k) && IsPid(p)
    ensures Sized(r)
  {
    k.(procs := k.procs[p := k.procs[p].(state := st)])
  }

  // ---------- The ready list ----------

  function Prio(k: Kernel, p: Pid): int
    requires Sized(k)
  {
    if IsPid(p) then k.procs[p].prio else 0
  }

  /** insert: the position behind all entries of at least this priority. */
  function InsertPos(k: Kernel, q: seq<Pid>, prio: int): (i: int)
    requires Sized(k)
    ensures 0 <= i <= |q|
    ensures forall j :: 0 <= j < i ==> Prio(k, q[j]) >= prio
    ensures i < |q| ==> Prio(k, q[i]) < prio
  {
    if q == [] || Prio(k, q[0]) < prio then 0
    else
      var i := InsertPos(k, q[1..], prio);
      assert forall j :: 1 <= j < i + 1 ==> q[j] == q[1..][j - 1];
      i + 1
  }

  function InsertAt<T>(q: seq<T>, i: int, x: T): seq<T>
    requires 0 <= i <= |q|
  {
    q[..i] + [x] + q[i..]
  }

  function Insert(k: Kernel, p: Pid): (r: Kernel)
    requires Sized(k)
    ensures Sized(r)
  {
    k.(ready := InsertAt(k.ready, InsertPos(k, k.ready, Prio(k, p)), p))
  }

  // ---------- resched ----------

  /** Switch to the first ready process.  One that was cut short in clkhandler counts a tick at once; as a
      slice is longer than one tick, it does not lose the processor again. */
  function Dispatch(k: Kernel): (r: Kernel)
    requires Sized(k)
    ensures Sized(r)
  {
    if k.ready == [] || !IsPid(k.ready[0]) then k
    else
      var p := k.ready[0];
      SetState(k, p, CURR).(ready := k.ready[1..], currpid := p, midtick := k.midtick - {p},
                            preempt := if p in k.midtick then QUANTUM - 1 else QUANTUM)
  }

  function Resched(k: Kernel): (r: Kernel)
    requires Sized(k)
    ensures Sized(r)
  {
    if k.ndefers > 0 then k.(attempt := true)
    else if k.procs[k.currpid].state == CURR then
      if k.ready == [] || Prio(k, k.currpid) > Prio(k, k.ready[0]) then k
      else Dispatch(Insert(SetState(k, k.currpid, READY), k.currpid))
    else Dispatch(k)
  }

  function DeferStart(k: Kernel): Kernel {
    k.(ndefers := k.ndefers + 1, attempt := if k.ndefers == 0 then false else k.attempt)
  }

  /** The call fails without an effect when nothing is deferred. */
  function DeferStop(k: Kernel): (r: Kernel)
    requires Sized(k)
    ensures Sized(r)
  {
    if k.ndefers <= 0 then k
    else if k.ndefers == 1 && k.attempt then Resched(k.(ndefers := 0))
    else k.(ndefers := k.ndefers - 1)
  }

  /** ready: the process is on no queue. */
  function Ready(k: Kernel, p: Pid): (r: Kernel)
    requires Sized(k) && IsPid(p)
    ensures Sized(r)
  {
    Resched(Insert(SetState(k, p, READY), p))
  }

  // ---------- Semaphores ----------

  predicate GoodSem(k: Kernel, s: int)
    requires Sized(k)
  {
    0 <= s < NSEM && k.sems[s].used
  }

  function SetSem(k: Kernel, s: int, sem: Sem): (r: Kernel)
    requires Sized(k) && 0 <= s < NSEM
    ensures Sized(r)
  {
    k.(sems := k.sems[s := sem])
  }

  function Wait(k: Kernel, s: int): Kernel
    requires Sized(k)
  {
    if !GoodSem(k, s) then k
    else
      var sem := k.sems[s];
      if sem.count - 1 >= 0 then SetSem(k, s, sem.(count := sem.count - 1))
      else
        var k1 := SetSem(k, s, sem.(count := sem.count - 1, queue := sem.queue + [k.currpid]));
        Resched(k1.(procs := k1.procs[k.currpid := k1.procs[k.currpid].(state := WAIT, sem := s)]))
  }

  /** The body of signal, and of the loops of signaln. */
  function SignalOne(k: Kernel, s: int): (r: Kernel)
    requires Sized(k) && 0 <= s < NSEM
    ensures Sized(r)
  {
    var sem := k.sems[s];
    if sem.count < 0 && sem.queue != [] && IsPid(sem.queue[0])
    then Ready(SetSem(k, s, sem.(count := sem.count + 1, queue := sem.queue[1..])), sem.queue[0])
    else SetSem(k, s, sem.(count := sem.count + 1))
  }

  function Signal(k: Kernel, s: int): Kernel
    requires Sized(k)
  {
    if !GoodSem(k, s) then k else SignalOne(k, s)
  }

  function SignalLoop(k: Kernel, s: int, n: nat): (r: Kernel)
    requires Sized(k) && 0 <= s < NSEM
    ensures Sized(r)
    decreases n
  {
    if n == 0 then k else SignalLoop(SignalOne(k, s), s, n - 1)
  }

  function SignalN(k: Kernel, s: int, n: int): Kernel
    requires Sized(k)
  {
    if !GoodSem(k, s) || n < 0 then k else DeferStop(SignalLoop(DeferStart(k), s, n))
  }

  /** semcreate with newsem: the next free entry from `nextsem` on. */
  function FindSem(sems: seq<Sem>, next: int, left: nat): (r: int)
    requires |sems| == NSEM && 0 <= next < NSEM
    ensures r == -1 || (0 <= r < NSEM && !sems[r].used)
    decreases left
  {
    if left == 0 then -1
    else if !sems[next].used then next
    else FindSem(sems, (next + 1) % NSEM, left - 1)
  }

  function SemCreate(k: Kernel, count: int): Kernel
    requires Sized(k)
  {
    var s := FindSem(k.sems, k.nextsem, NSEM);
    if count < 0 || s == -1 then k
    else SetSem(k, s, k.sems[s].(used := true, count := count)).(nextsem := (s + 1) % NSEM)
  }

  /** Make the whole queue of a semaphore ready, first come first, counting up or not. */
  function ReadyAll(k: Kernel, s: int, countUp: bool): (r: Kernel)
    requires Sized(k) && 0 <= s < NSEM
    ensures Sized(r)
    decreases |k.sems[s].queue|
  {
    var sem := k.sems[s];
    if sem.queue == [] || !IsPid(sem.queue[0]) then k
    else
      var k1 := SetSem(k, s, sem.(queue := sem.queue[1..], count := if countUp then sem.count + 1 else sem.count));
      SemsReady(k1, sem.queue[0]);
      ReadyAll(Ready(k1, sem.queue[0]), s, countUp)
  }

  lemma SemsReady(k: Kernel, p: Pid)
    requires Sized(k) && IsPid(p)
    ensures Ready(k, p).sems == k.sems
  {
  }

  function SemDelete(k: Kernel, s: int): Kernel
    requires Sized(k)
  {
    if !GoodSem(k, s) then k
    else
      var k1 := ReadyAll(DeferStart(SetSem(k, s, k.sems[s].(used := false))), s, true);
      DeferStop(SetSem(k1, s, k1.sems[s].(count := k1.sems[s].count + 1)))
  }

  function SemReset(k: Kernel, s: int, count: int): Kernel
    requires Sized(k)
  {
    if count < 0 || !GoodSem(k, s) then k
    else
      var k1 := ReadyAll(DeferStart(k), s, false);
      DeferStop(SetSem(k1, s, k1.sems[s].(count := count)))
  }

  // ---------- The sleep queue ----------

  /** insertd: behind all entries that are due no later, with the rest of the delay as key. */
  function InsertD(q: seq<Sleeper>, p: Pid, key: int): seq<Sleeper> {
    if q == [] then [Sleeper(p, key)]
    else if q[0].key <= key then [q[0]] + InsertD(q[1..], p, key - q[0].key)
    else [Sleeper(p, key), q[0].(key := q[0].key - key)] + q[1..]
  }

  /** unsleep: the entry after the removed one takes over its delay. */
  function RemoveD(q: seq<Sleeper>, p: Pid): seq<Sleeper> {
    if q == [] then []
    else if q[0].pid != p then [q[0]] + RemoveD(q[1..], p)
    else if |q| == 1 then []
    else [q[1].(key := q[1].key + q[0].key)] + q[2..]
  }

  /** sleepms with a positive delay and recvtime: the caller goes to the sleep queue. */
  function SleepAs(k: Kernel, delay: int, st: PrState): Kernel
    requires Sized(k)
  {
    Resched(SetState(k, k.currpid, st).(sleepq := InsertD(k.sleepq, k.currpid, delay)))
  }

  function SleepMs(k: Kernel, delay: int): Kernel
    requires Sized(k)
  {
    if delay < 0 then k else if delay == 0 then Resched(k) else SleepAs(k, delay, SLEEP)
  }

  /** wakeup: everything due becomes ready. */
  function WakeLoop(k: Kernel): (r: Kernel)
    requires Sized(k)
    ensures Sized(r)
    decreases |k.sleepq|
  {
    if k.sleepq == [] || k.sleepq[0].key > 0 || !IsPid(k.sleepq[0].pid) then k
    else
      var k1 := k.(sleepq := k.sleepq[1..]);
      SleepReady(k1, k.sleepq[0].pid);
      WakeLoop(Ready(k1, k.sleepq[0].pid))
  }

  lemma SleepReady(k: Kernel, p: Pid)
    requires Sized(k) && IsPid(p)
    ensures Ready(k, p).sleepq == k.sleepq
  {
  }

  function Wakeup(k: Kernel): (r: Kernel)
    requires Sized(k)
    ensures Sized(r)
  {
    DeferStop(WakeLoop(DeferStart(k)))
  }

  /** The part of clkhandler that serves the sleep queue. */
  function TickSleepers(k: Kernel): (r: Kernel)
    requires Sized(k)
    ensures Sized(r)
  {
    if k.sleepq == [] then k
    else
      var k1 := k.(sleepq := [k.sleepq[0].(key := k.sleepq[0].key - 1)] + k.sleepq[1..]);
      if k1.sleepq[0].key <= 0 then Wakeup(k1) else k1
  }

  /** clkhandler, without the count of seconds. */
  function Tick(k: Kernel): (r: Kernel)
    requires Sized(k)
  {
    var k1 := TickSleepers(k);
    if k1.currpid != k.currpid then k1.(midtick := k1.midtick + {k.currpid})
    else if k1.preempt - 1 <= 0 then Resched(k1.(preempt := QUANTUM))
    else k1.(preempt := k1.preempt - 1)
  }

  // ---------- Processes ----------

  function Suspend(k: Kernel, p: Pid): Kernel
    requires Sized(k)
  {
    if BadPid(k, p) || p == NULLPROC then k
    else match k.procs[p].state
      case READY => SetState(k, p, SUSP).(ready := Without(k.ready, p))
      case CURR => Resched(SetState(k, p, SUSP))
      case _ => k
  }

  function Resume(k: Kernel, p: Pid): Kernel
    requires Sized(k)
  {
    if BadPid(k, p) || k.procs[p].state != SUSP then k else Ready(k, p)
  }

  /** kill, after the messages, devices and stack are dealt with. */
  function Kill(k: Kernel, p: Pid): Kernel
    requires Sized(k)
  {
    if BadPid(k, p) || p == NULLPROC then k
    else
      var f := SetState(k, p, FREE).(midtick := k.midtick - {p});
      match k.procs[p].state
      case CURR => Resched(f)
      case SLEEP => f.(sleepq := RemoveD(k.sleepq, p))
      case RECTIM => f.(sleepq := RemoveD(k.sleepq, p))
      case WAIT =>
        var s := k.procs[p].sem;
        if !(0 <= s < NSEM) then f
        else SetSem(f, s, k.sems[s].(count := k.sems[s].count + 1, queue := Without(k.sems[s].queue, p)))
      case READY => f.(ready := Without(k.ready, p))
      case _ => f
  }

  /** What create does to the process table: a free entry becomes a suspended process. */
  function Create(k: Kernel, p: Pid, prio: int): Kernel
    requires Sized(k)
  {
    if !IsPid(p) || k.procs[p].state != FREE || prio < 1 then k
    else k.(procs := k.procs[p := Proc(SUSP, prio, -1)])
  }

  /** receive without a message waiting. */
  function Receive(k: Kernel): Kernel
    requires Sized(k)
  {
    Resched(SetState(k, k.currpid, RECV))
  }

  /** recvtime without a message waiting. */
  function RecvTime(k: Kernel, maxwait: int): Kernel
    requires Sized(k)
  {
    if maxwait < 0 then k else SleepAs(k, maxwait, RECTIM)
  }

  /** What the arrival of a message does to the process it is for. */
  function Deliver(k: Kernel, p: Pid): Kernel
    requires Sized(k)
  {
    if BadPid(k, p) then k
    else match k.procs[p].state
      case RECV => Ready(k, p)
      case RECTIM => Ready(k.(sleepq := RemoveD(k.sleepq, p)), p)
      case _ => k
  }

  // ---------- Calls ----------

  datatype Call =
    | CWait(s: int) | CSignal(s: int) | CSignalN(s: int, n: int)
    | CSemCreate(count: int) | CSemDelete(s: int) | CSemReset(s: int, count: int)
    | CSleep(delay: int) | CRecvTime(maxwait: int) | CReceive | CDeliver(p: Pid)
    | CYield | CSuspend(p: Pid) | CResume(p: Pid) | CKill(p: Pid) | CCreate(p: Pid, prio: int)
    | CTick | CDeferStart | CDeferStop

  function Step(k: Kernel, c: Call): Kernel
    requires Sized(k)
  {
    match c
    case CWait(s) => Wait(k, s)
    case CSignal(s) => Signal(k, s)
    case CSignalN(s, n) => SignalN(k, s, n)
    case CSemCreate(n) => SemCreate(k, n)
    case CSemDelete(s) => SemDelete(k, s)
    case CSemReset(s, n) => SemReset(k, s, n)
    case CSleep(d) => SleepMs(k, d)
    case CRecvTime(d) => RecvTime(k, d)
    case CReceive => Receive(k)
    case CDeliver(p) => Deliver(k, p)
    case CYield => Resched(k)
    case CSuspend(p) => Suspend(k, p)
    case CResume(p) => Resume(k, p)
    case CKill(p) => Kill(k, p)
    case CCreate(p, prio) => Create(k, p, prio)
    case CTick => Tick(k)
    case CDeferStart => DeferStart(k)
    case CDeferStop => DeferStop(k)
  }

  /** Whether the call takes the processor away from the calling process. */
  predicate Blocks(k: Kernel, c: Call)
    requires Sized(k)
  {
    match c
    case CWait(s) => GoodSem(k, s) && k.sems[s].count <= 0
    case CSleep(d) => d > 0
    case CRecvTime(d) => d >= 0
    case CReceive => true
    case CSuspend(p) => p == k.currpid && p != NULLPROC
    case CKill(p) => p == k.currpid && p != NULLPROC
    case _ => false
  }

  /** The null process never blocks, and no process blocks while rescheduling is deferred. */
  predicate Allowed(k: Kernel, c: Call)
    requires Sized(k)
  {
    Blocks(k, c) ==> k.currpid != NULLPROC && k.ndefers == 0
  }

  /** When the null process gives up the processor, somebody is ready to take it: resched does not look. */
  predicate Relieved(k: Kernel, c: Call)
    requires Sized(k)
  {
    Blocks(k, c) && k.ndefers == 0 && k.currpid == NULLPROC ==> k.ready != []
  }
}
