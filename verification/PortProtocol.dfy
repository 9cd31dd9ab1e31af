/** Ports: bounded message queues over two semaphores (system/pt*.c).

    A call runs with interrupts disabled, so other processes get in only where it blocks in `wait` or where
    a semaphore call reschedules.  The events below are the pieces between those points; between any two
    events of one process, events of all others may happen, among them a reset or a deletion of the port the
    process is waiting for. */
module PortProtocol {
  import opened Sequences

  const NPORTS := 30
  const MAXCNT := 0x1_0000        // ptmaxcnt is a 16-bit field
  const SEQS := 0x1_0000_0000     // ptseq is a 32-bit field

  type Pid = int
  type Message = int

  /** A semaphore: its count and the processes blocked on it, first come first. */
  datatype Sem = Sem(count: int, queue: seq<Pid>)

  function SemWait(sem: Sem, pid: Pid): Sem {
    Sem(sem.count - 1, if sem.count - 1 < 0 then sem.queue + [pid] else sem.queue)
  }

  /** The processes a signal makes ready. */
  function Woken(sem: Sem): seq<Pid> {
    if sem.count < 0 && sem.queue != [] then [sem.queue[0]] else []
  }

  function SemSignal(sem: Sem): Sem {
    Sem(sem.count + 1, if sem.count < 0 && sem.queue != [] then sem.queue[1..] else sem.queue)
  }

  /** semdelete counts up until no process is left, and once more. */
  function SemDelete(sem: Sem): Sem {
    Sem((if sem.count < 0 then 0 else sem.count) + 1, [])
  }

  datatype PortState = FREE | LIMBO | ALLOC

  /** How far `_ptclear` has got with a port, if it is at work. */
  datatype Stage = Idle | Draining(delete: bool) | SendersFreed(delete: bool) | ReceiversFreed(delete: bool)

  /** A message in its list node. */
  datatype Item = Item(node: int, msg: Message)

  /** A port.  `seqno` counts up without bound; the field `ptseq` is its value modulo 2^32.  `cap` is the
      number of messages the port currently admits.  `sent` and `gone` are the messages that ever entered and
      left the port. */
  datatype Port = Port(state: PortState, stage: Stage, ssem: Sem, rsem: Sem, maxcnt: int, cap: int, seqno: int,
                       items: seq<Item>, sent: seq<Message>, gone: seq<Message>)

  datatype Kind = Sending(msg: Message) | Receiving

  /** A process inside ptsend or ptrecv: blocked on the semaphore, or released but not yet running again. */
  datatype Pending = Pending(port: int, seqno: int, kind: Kind, released: bool)

  datatype State = State(ports: seq<Port>, free: seq<int>, pend: map<Pid, Pending>, nextid: int)

  datatype Reply = OK | SYSERR | Got(msg: Message) | NewPort(id: int)

  /** How a piece of a call ends: it returns, it blocks, it panics for want of a message node, or it follows
      the null head of an empty message list. */
  datatype Result = Done(s: State, reply: Reply) | Blocked(s: State) | Panic | NullDereference

  function Wake(pend: map<Pid, Pending>, pids: seq<Pid>): map<Pid, Pending> {
    map q | q in pend :: if q in pids then pend[q].(released := true) else pend[q]
  }

  predicate GoodId(p: int) {
    0 <= p < NPORTS
  }

  // ---------- The pieces of ptsend and ptrecv ----------

  /** ptsend from the check of `ptfree` on. */
  function SendTail(s: State, p: int, msg: Message): Result
    requires GoodId(p) && |s.ports| == NPORTS
  {
    if s.free == [] then Panic
    else
      var port := s.ports[p];
      var port' := port.(items := port.items + [Item(s.free[0], msg)], sent := port.sent + [msg],
                         rsem := SemSignal(port.rsem));
      Done(State(s.ports[p := port'], s.free[1..], Wake(s.pend, Woken(port.rsem)), s.nextid), OK)
  }

  /** ptrecv from the access to `pthead` on. */
  function RecvTail(s: State, p: int): Result
    requires GoodId(p) && |s.ports| == NPORTS
  {
    var port := s.ports[p];
    if port.items == [] then NullDereference
    else
      var port' := port.(items := port.items[1..], gone := port.gone + [port.items[0].msg],
                         ssem := SemSignal(port.ssem));
      Done(State(s.ports[p := port'], [port.items[0].node] + s.free, Wake(s.pend, Woken(port.ssem)), s.nextid),
           Got(port.items[0].msg))
  }

  /** ptsend up to the point where it blocks or returns. */
  function SendCall(s: State, pid: Pid, p: int, msg: Message): Result
    requires |s.ports| == NPORTS
  {
    if !GoodId(p) || s.ports[p].state != ALLOC then Done(s, SYSERR)
    else
      var port := s.ports[p];
      var t := s.(ports := s.ports[p := port.(ssem := SemWait(port.ssem, pid))]);
      if port.ssem.count - 1 < 0 then Blocked(t.(pend := t.pend[pid := Pending(p, port.seqno, Sending(msg), false)]))
      else SendTail(t, p, msg)
  }

  /** ptrecv up to the point where it blocks or returns. */
  function RecvCall(s: State, pid: Pid, p: int): Result
    requires |s.ports| == NPORTS
  {
    if !GoodId(p) || s.ports[p].state != ALLOC then Done(s, SYSERR)
    else
      var port := s.ports[p];
      var t := s.(ports := s.ports[p := port.(rsem := SemWait(port.rsem, pid))]);
      if port.rsem.count - 1 < 0 then Blocked(t.(pend := t.pend[pid := Pending(p, port.seqno, Receiving, false)]))
      else RecvTail(t, p)
  }

  /** The test after `wait`: the port is allocated and its 32-bit sequence number is the one noted on entry. */
  predicate SameSeq(port: Port, seqno: int) {
    port.state == ALLOC && port.seqno % SEQS == seqno % SEQS
  }

  /** A released process runs again, inside ptsend or ptrecv. */
  function Resume(s: State, pid: Pid): Result
    requires |s.ports| == NPORTS && pid in s.pend && GoodId(s.pend[pid].port)
  {
    var c := s.pend[pid];
    var t := s.(pend := s.pend - {pid});
    if !SameSeq(s.ports[c.port], c.seqno) then Done(t, SYSERR)
    else if c.kind.Sending? then SendTail(t, c.port, c.kind.msg)
    else RecvTail(t, c.port)
  }

  // ---------- The pieces of ptreset, ptdelete and ptcreate ----------

  /** ptreset and ptdelete up to the calls of the disposal function: the port is in limbo. */
  function ClearStart(s: State, p: int, delete: bool): Result
    requires |s.ports| == NPORTS
  {
    if !GoodId(p) || s.ports[p].state != ALLOC then Done(s, SYSERR)
    else
      var port := s.ports[p];
      Blocked(s.(ports := s.ports[p := port.(state := LIMBO, stage := Draining(delete), seqno := port.seqno + 1)]))
  }

  function Nodes(items: seq<Item>): seq<int> {
    seq(|items|, i requires 0 <= i < |items| => items[i].node)
  }

  function Messages(items: seq<Item>): seq<Message> {
    seq(|items|, i requires 0 <= i < |items| => items[i].msg)
  }

  /** The message list goes to the free list and the sender semaphore is reset or deleted. */
  function ClearSenders(s: State, p: int): State
    requires GoodId(p) && |s.ports| == NPORTS && s.ports[p].stage.Draining?
  {
    var port := s.ports[p];
    var delete := port.stage.delete;
    var port' := port.(items := [], gone := port.gone + Messages(port.items), stage := SendersFreed(delete),
                       cap := if delete then port.cap else port.maxcnt,
                       ssem := if delete then SemDelete(port.ssem) else Sem(port.maxcnt, []));
    State(s.ports[p := port'], Nodes(port.items) + s.free, Wake(s.pend, port.ssem.queue), s.nextid)
  }

  /** The receiver semaphore is reset or deleted. */
  function ClearReceivers(s: State, p: int): State
    requires GoodId(p) && |s.ports| == NPORTS && s.ports[p].stage.SendersFreed?
  {
    var port := s.ports[p];
    var delete := port.stage.delete;
    var port' := port.(stage := ReceiversFreed(delete), rsem := if delete then SemDelete(port.rsem) else Sem(0, []));
    State(s.ports[p := port'], s.free, Wake(s.pend, port.rsem.queue), s.nextid)
  }

  /** The new state is set; ptdelete also remembers the port as the next to try. */
  function ClearEnd(s: State, p: int): State
    requires GoodId(p) && |s.ports| == NPORTS && s.ports[p].stage.ReceiversFreed?
  {
    var port := s.ports[p];
    var delete := port.stage.delete;
    s.(ports := s.ports[p := port.(state := if delete then FREE else ALLOC, stage := Idle)],
       nextid := if delete then p else s.nextid)
  }

  /** The first free port in the order of the scan, which starts at `nextid`; -1 if there is none among the
      `left` entries still to try. */
  function Scan(ports: seq<Port>, nextid: int, left: nat): (r: int)
    requires |ports| == NPORTS && GoodId(nextid)
    ensures r == -1 || (GoodId(r) && ports[r].state == FREE)
    decreases left
  {
    if left == 0 then -1
    else if ports[nextid].state == FREE then nextid
    else Scan(ports, (nextid + 1) % NPORTS, left - 1)
  }

  /** ptcreate, with semaphores to be had. */
  function Create(s: State, count: int): Result
    requires |s.ports| == NPORTS && GoodId(s.nextid)
  {
    var p := Scan(s.ports, s.nextid, NPORTS);
    if count < 0 || p == -1 then Done(s, SYSERR)
    else
      var port := s.ports[p];
      var port' := port.(state := ALLOC, ssem := Sem(count, []), rsem := Sem(0, []), items := [],
                         seqno := port.seqno + 1, maxcnt := count % MAXCNT, cap := count);
      Done(s.(ports := s.ports[p := port'], nextid := (p + 1) % NPORTS), NewPort(p))
  }

  /** kill of a process blocked on a semaphore of a port. */
  function Kill(s: State, pid: Pid): State
    requires |s.ports| == NPORTS && pid in s.pend && GoodId(s.pend[pid].port)
  {
    var c := s.pend[pid];
    var port := s.ports[c.port];
    var port' := if c.kind.Sending? then port.(ssem := SemKill(port.ssem, pid))
        else port.(rsem := SemKill(port.rsem, pid));
    s.(ports := s.ports[c.port := port'], pend := s.pend - {pid})
  }

  function SemKill(sem: Sem, pid: Pid): Sem {
    Sem(sem.count + 1, Without(sem.queue, pid))
  }

  // ---------- Events ----------

  datatype Event =
    | EvSend(pid: Pid, port: int, msg: Message)
    | EvRecv(pid: Pid, port: int)
    | EvResume(pid: Pid)
    | EvClear(port: int, delete: bool)
    | EvClearSenders(port: int)
    | EvClearReceivers(port: int)
    | EvClearEnd(port: int)
    | EvCreate(count: int)
    | EvKill(pid: Pid)

  /** What may happen next: a process outside the port calls starts one, a released process goes on, a clearing
      process goes on, a process still blocked is killed. */
  predicate Enabled(s: State, e: Event)
    requires |s.ports| == NPORTS
  {
    match e
    case EvSend(pid, p, m) => pid !in s.pend
    case EvRecv(pid, p) => pid !in s.pend
    case EvResume(pid) => pid in s.pend && s.pend[pid].released && GoodId(s.pend[pid].port)
    case EvClear(p, d) => true
    case EvClearSenders(p) => GoodId(p) && s.ports[p].stage.Draining?
    case EvClearReceivers(p) => GoodId(p) && s.ports[p].stage.SendersFreed?
    case EvClearEnd(p) => GoodId(p) && s.ports[p].stage.ReceiversFreed?
    case EvCreate(n) => GoodId(s.nextid)
    case EvKill(pid) => pid in s.pend && !s.pend[pid].released && GoodId(s.pend[pid].port)
  }

  function Step(s: State, e: Event): Result
    requires |s.ports| == NPORTS && Enabled(s, e)
  {
    match e
    case EvSend(pid, p, m) => SendCall(s, pid, p, m)
    case EvRecv(pid, p) => RecvCall(s, pid, p)
    case EvResume(pid) => Resume(s, pid)
    case EvClear(p, d) => ClearStart(s, p, d)
    case EvClearSenders(p) => Blocked(ClearSenders(s, p))
    case EvClearReceivers(p) => Blocked(ClearReceivers(s, p))
    case EvClearEnd(p) => Done(ClearEnd(s, p), OK)
    case EvCreate(n) => Create(s, n)
    case EvKill(pid) => Blocked(Kill(s, pid))
  }
}
