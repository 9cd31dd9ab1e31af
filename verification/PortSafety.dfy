/** What every run of the port protocol keeps. */
module PortSafety {
  import opened PortProtocol
  import opened Sequences

  function Positive(n: int): int {
    if n > 0 then n else 0
  }

  /** Process entry `c` is a released sender (or receiver) of port `p` at sequence number `seqno`. */
  predicate IsReleased(c: Pending, p: int, seqno: int, sender: bool) {
    c.port == p && c.seqno == seqno && c.released && c.kind.Sending? == sender
  }

  predicate IsBlocked(c: Pending, p: int, sender: bool) {
    c.port == p && !c.released && c.kind.Sending? == sender
  }

  /** The released but not yet running senders (or receivers) that entered at the current sequence number. */
  function Released(s: State, p: int, sender: bool): set<Pid>
    requires 0 <= p < |s.ports|
  {
    set pid | pid in s.pend && IsReleased(s.pend[pid], p, s.ports[p].seqno, sender)
  }

  function Queue(port: Port, sender: bool): seq<Pid> {
    if sender then port.ssem.queue else port.rsem.queue
  }

  /** The number of queued processes is what the count says. */
  predicate SemOK(sem: Sem) {
    |sem.queue| == Positive(-sem.count)
  }

  ghost predicate QueuedIffBlocked(s: State, p: int, sender: bool, pid: Pid)
    requires 0 <= p < |s.ports|
  {
    pid in Queue(s.ports[p], sender) <==> pid in s.pend && IsBlocked(s.pend[pid], p, sender)
  }

  ghost predicate QueueOK(s: State, p: int, sender: bool)
    requires 0 <= p < |s.ports|
  {
    NoDup(Queue(s.ports[p], sender)) && forall pid :: QueuedIffBlocked(s, p, sender, pid)
  }

  /** The sequence number at which the processes blocked at a port entered it. */
  function EntrySeq(port: Port): int {
    if port.state == ALLOC then port.seqno else port.seqno - 1
  }

  ghost predicate PendOK(s: State, pid: Pid)
    requires pid in s.pend && |s.ports| == NPORTS
  {
    var c := s.pend[pid];
    && GoodId(c.port)
    && c.seqno <= s.ports[c.port].seqno
    && (s.ports[c.port].state != ALLOC ==> c.seqno < s.ports[c.port].seqno)
    && (!c.released ==> s.ports[c.port].state != FREE && c.seqno == EntrySeq(s.ports[c.port]))
  }

  /** Messages balance receivers and room balances senders.  `dm` messages and `ds` places are spoken for by
      the process that is running. */
  ghost predicate Balance(s: State, p: int, dm: int, ds: int)
    requires 0 <= p < |s.ports|
  {
    var port := s.ports[p];
    && |port.items| == Positive(port.rsem.count) + |Released(s, p, false)| + dm
    && port.cap - |port.items| == Positive(port.ssem.count) + |Released(s, p, true)| + ds
  }

  /** What holds of a port by itself, apart from the processes. */
  ghost predicate Shape(port: Port) {
    && SemOK(port.ssem) && SemOK(port.rsem)
    && 0 <= port.maxcnt < MAXCNT && 0 <= port.cap
    && port.sent == port.gone + Messages(port.items)
    && match port.state
       case ALLOC => port.stage.Idle?
       case LIMBO =>
         && !port.stage.Idle?
         && (port.stage.Draining? ==> |port.items| <= port.cap)
         && (!port.stage.Draining? ==> port.items == [] && port.ssem.queue == []
                                       && (!port.stage.delete ==> port.ssem.count == port.cap))
         && (port.stage.ReceiversFreed? ==> port.rsem.queue == [] && (!port.stage.delete ==> port.rsem.count == 0))
       case FREE => port.stage.Idle? && port.items == [] && port.ssem.queue == [] && port.rsem.queue == []
  }

  /** The part of Shape that no history can break. */
  ghost predicate Tidy(port: Port) {
    && port.sent == port.gone + Messages(port.items)
    && match port.state
       case ALLOC => port.stage.Idle?
       case LIMBO => !port.stage.Idle? && (!port.stage.Draining? ==> port.items == [])
       case FREE => port.stage.Idle? && port.items == []
  }

  ghost predicate TidyAt(s: State, p: int)
    requires 0 <= p < |s.ports|
  {
    Tidy(s.ports[p])
  }

  /** What holds in every reachable state, whatever accession numbers come round again. */
  ghost predicate Orderly(s: State) {
    |s.ports| == NPORTS && GoodId(s.nextid) && forall p :: 0 <= p < NPORTS ==> TidyAt(s, p)
  }

  ghost predicate PortHeld(s: State, p: int, dm: int, ds: int)
    requires 0 <= p < |s.ports|
  {
    && Shape(s.ports[p])
    && QueueOK(s, p, true) && QueueOK(s, p, false)
    && (s.ports[p].state == ALLOC ==> Balance(s, p, dm, ds))
  }

  ghost predicate PortOK(s: State, p: int)
    requires 0 <= p < |s.ports|
  {
    PortHeld(s, p, 0, 0)
  }

  /** The invariant between events. */
  ghost predicate Inv(s: State) {
    && |s.ports| == NPORTS && GoodId(s.nextid)
    && (forall q :: 0 <= q < NPORTS ==> PortOK(s, q))
    && (forall pid :: pid in s.pend ==> PendOK(s, pid))
  }

  /** The invariant while the running process holds `dm` messages and `ds` places of port `p`. */
  ghost predicate Holding(s: State, p: int, dm: int, ds: int) {
    && |s.ports| == NPORTS && GoodId(s.nextid) && GoodId(p)
    && (forall q :: 0 <= q < NPORTS && q != p ==> PortOK(s, q))
    && PortHeld(s, p, dm, ds)
    && (forall pid :: pid in s.pend ==> PendOK(s, pid))
  }

  // ---------- An event at port `p` does not concern the other ports ----------

  ghost predicate SameEntry(s: State, t: State, p: int, pid: Pid) {
    && (pid in s.pend && s.pend[pid].port != p ==> pid in t.pend && t.pend[pid] == s.pend[pid])
    && (pid in t.pend && t.pend[pid].port != p ==> pid in s.pend && t.pend[pid] == s.pend[pid])
  }

  /** `t` differs from `s` only at port `p` and in processes pending there. */
  ghost predicate Elsewhere(s: State, t: State, p: int) {
    && |s.ports| == |t.ports| == NPORTS && GoodId(p) && GoodId(t.nextid)
    && (forall q :: 0 <= q < NPORTS && q != p ==> t.ports[q] == s.ports[q])
    && (forall pid :: SameEntry(s, t, p, pid))
  }

  lemma OtherPort(s: State, t: State, p: int, q: int)
    requires Elsewhere(s, t, p) && GoodId(q) && q != p && PortOK(s, q)
    ensures PortOK(t, q)
  {
    hide Shape;
    forall snd ensures Released(t, q, snd) == Released(s, q, snd) {
      forall pid ensures pid in Released(t, q, snd) <==> pid in Released(s, q, snd) {
        assert SameEntry(s, t, p, pid);
      }
    }
    forall snd, pid ensures QueuedIffBlocked(t, q, snd, pid) {
      assert QueuedIffBlocked(s, q, snd, pid) && SameEntry(s, t, p, pid);
    }
  }

  /** To establish the invariant after an event at port `p`, look only at that port and its processes. */
  lemma Establish(s: State, t: State, p: int, dm: int, ds: int, dm': int, ds': int)
    requires Holding(s, p, dm, ds) && Elsewhere(s, t, p) && PortHeld(t, p, dm', ds')
    requires forall pid :: pid in t.pend && t.pend[pid].port == p ==> PendOK(t, pid)
    ensures Holding(t, p, dm', ds')
  {
    hide PortOK, PortHeld;
    forall q | 0 <= q < NPORTS && q != p ensures PortOK(t, q) {
      OtherPort(s, t, p, q);
    }
    forall pid | pid in t.pend ensures PendOK(t, pid) {
      if t.pend[pid].port != p { assert SameEntry(s, t, p, pid); assert PendOK(s, pid); }
    }
  }

  // ---------- Waking processes ----------

  /** Making the head of a queue ready moves one process from the blocked to the released ones. */
  lemma WakeHead(s: State, t: State, p: int, sender: bool)
    requires |s.ports| == |t.ports| == NPORTS && GoodId(p) && QueueOK(s, p, true) && QueueOK(s, p, false)
    requires Queue(s.ports[p], sender) != []
    requires t.pend == Wake(s.pend, [Queue(s.ports[p], sender)[0]])
    requires Queue(t.ports[p], sender) == Queue(s.ports[p], sender)[1..]
    requires Queue(t.ports[p], !sender) == Queue(s.ports[p], !sender)
    requires t.ports[p].seqno == s.ports[p].seqno && s.ports[p].state == ALLOC
    requires forall pid :: pid in s.pend ==> PendOK(s, pid)
    ensures QueueOK(t, p, true) && QueueOK(t, p, false)
    ensures |Released(t, p, sender)| == |Released(s, p, sender)| + 1
    ensures Released(t, p, !sender) == Released(s, p, !sender)
  {
    var q := Queue(s.ports[p], sender);
    assert QueuedIffBlocked(s, p, sender, q[0]) && PendOK(s, q[0]);
    assert Released(t, p, sender) == Released(s, p, sender) + {q[0]};
    assert Released(t, p, !sender) == Released(s, p, !sender);
    WakeQueues(s, t, p, sender);
  }

  lemma WakeQueues(s: State, t: State, p: int, sender: bool)
    requires |s.ports| == |t.ports| == NPORTS && GoodId(p) && QueueOK(s, p, true) && QueueOK(s, p, false)
    requires Queue(s.ports[p], sender) != []
    requires t.pend == Wake(s.pend, [Queue(s.ports[p], sender)[0]])
    requires Queue(t.ports[p], sender) == Queue(s.ports[p], sender)[1..]
    requires Queue(t.ports[p], !sender) == Queue(s.ports[p], !sender)
    ensures QueueOK(t, p, true) && QueueOK(t, p, false)
  {
    var q := Queue(s.ports[p], sender);
    var other := !sender;
    assert QueuedIffBlocked(s, p, sender, q[0]);
    NoDupTail(q);
    forall pid ensures QueuedIffBlocked(t, p, sender, pid) {
      assert QueuedIffBlocked(s, p, sender, pid);
    }
    forall pid ensures QueuedIffBlocked(t, p, other, pid) {
      assert QueuedIffBlocked(s, p, other, pid);
    }
    assert QueueOK(t, p, sender) && QueueOK(t, p, other);
  }

  function Semaphore(port: Port, sender: bool): Sem {
    if sender then port.ssem else port.rsem
  }

  /** A signal adds exactly one to what the semaphore grants: its count or its released processes. */
  lemma SignalKeeps(s: State, t: State, p: int, sender: bool)
    requires |s.ports| == |t.ports| == NPORTS && GoodId(p) && QueueOK(s, p, true) && QueueOK(s, p, false)
    requires s.ports[p].state == ALLOC && SemOK(Semaphore(s.ports[p], sender))
    requires t.pend == Wake(s.pend, Woken(Semaphore(s.ports[p], sender)))
    requires Semaphore(t.ports[p], sender) == SemSignal(Semaphore(s.ports[p], sender))
    requires Semaphore(t.ports[p], !sender) == Semaphore(s.ports[p], !sender)
    requires t.ports[p].seqno == s.ports[p].seqno
    requires forall pid :: pid in s.pend ==> PendOK(s, pid)
    ensures SemOK(Semaphore(t.ports[p], sender)) && QueueOK(t, p, true) && QueueOK(t, p, false)
    ensures Positive(Semaphore(t.ports[p], sender).count) + |Released(t, p, sender)|
         == Positive(Semaphore(s.ports[p], sender).count) + |Released(s, p, sender)| + 1
    ensures Released(t, p, !sender) == Released(s, p, !sender)
    ensures forall pid :: SameEntry(s, t, p, pid)
    ensures forall pid :: pid in t.pend && t.pend[pid].port == p ==>
              pid in s.pend && t.pend[pid] == s.pend[pid].(released := t.pend[pid].released)
                            && (s.pend[pid].released ==> t.pend[pid].released)
  {
    hide PendOK;
    var sem := Semaphore(s.ports[p], sender);
    forall q | q in Woken(sem) && q in s.pend ensures s.pend[q].port == p {
      assert QueuedIffBlocked(s, p, sender, q);
    }
    if sem.count < 0 {
      hide QueueOK;
      WakeHead(s, t, p, sender);
    } else {
      assert t.pend == s.pend;
      SameQueues(s, t, p);
    }
  }

  lemma SameQueues(s: State, t: State, p: int)
    requires |s.ports| == |t.ports| == NPORTS && GoodId(p) && QueueOK(s, p, true) && QueueOK(s, p, false)
    requires t.pend == s.pend && t.ports[p].seqno == s.ports[p].seqno
    requires t.ports[p].ssem.queue == s.ports[p].ssem.queue && t.ports[p].rsem.queue == s.ports[p].rsem.queue
    ensures QueueOK(t, p, true) && QueueOK(t, p, false)
    ensures forall snd :: Released(t, p, snd) == Released(s, p, snd)
  {
    forall snd: bool, pid | QueueOK(s, p, snd) ensures QueuedIffBlocked(t, p, snd, pid) {
      assert QueuedIffBlocked(s, p, snd, pid);
    }
  }

  lemma PendKept(s: State, t: State, p: int)
    requires |s.ports| == |t.ports| == NPORTS && GoodId(p)
    requires forall pid :: pid in s.pend ==> PendOK(s, pid)
    requires t.ports[p].seqno == s.ports[p].seqno && t.ports[p].state == s.ports[p].state
    requires forall pid :: pid in t.pend && t.pend[pid].port == p ==>
               pid in s.pend && t.pend[pid] == s.pend[pid].(released := t.pend[pid].released)
                             && (s.pend[pid].released ==> t.pend[pid].released)
    ensures forall pid :: pid in t.pend && t.pend[pid].port == p ==> PendOK(t, pid)
  {
    forall pid | pid in t.pend && t.pend[pid].port == p ensures PendOK(t, pid) {
      assert PendOK(s, pid);
    }
  }

  lemma MessagesAppend(a: seq<Item>, x: Item)
    ensures Messages(a + [x]) == Messages(a) + [x.msg]
    ensures Nodes(a + [x]) == Nodes(a) + [x.node]
  {
  }

  lemma MessagesHead(a: seq<Item>)
    requires a != []
    ensures Messages(a) == [a[0].msg] + Messages(a[1..])
    ensures Nodes(a) == [a[0].node] + Nodes(a[1..])
  {
  }

  /** A sender that holds a place finishes: the place becomes a message. */
  lemma SendTailKeeps(s: State, p: int, msg: Message)
    requires Holding(s, p, 0, 1) && s.ports[p].state == ALLOC && s.free != []
    ensures SendTail(s, p, msg).Done? && Inv(SendTail(s, p, msg).s)
  {
    hide QueueOK, PendOK;
    var t := SendTail(s, p, msg).s;
    var port, port' := s.ports[p], t.ports[p];
    SignalKeeps(s, t, p, false);
    PendKept(s, t, p);
    MessagesAppend(port.items, Item(s.free[0], msg));
    assert port.sent + [msg] == port.gone + (Messages(port.items) + [msg]);
    Establish(s, t, p, 0, 1, 0, 0);
    HoldingInv(t, p);
  }

  lemma HoldingInv(s: State, p: int)
    requires Holding(s, p, 0, 0)
    ensures Inv(s)
  {
  }

  /** A receiver that holds a message finishes: there is a message, and the message becomes a place. */
  lemma RecvTailKeeps(s: State, p: int)
    requires Holding(s, p, 1, 0) && s.ports[p].state == ALLOC
    ensures RecvTail(s, p).Done? && Inv(RecvTail(s, p).s)
  {
    hide QueueOK, PendOK;
    var t := RecvTail(s, p).s;
    var port, port' := s.ports[p], t.ports[p];
    SignalKeeps(s, t, p, true);
    PendKept(s, t, p);
    MessagesHead(port.items);
    assert port.gone + ([port.items[0].msg] + Messages(port.items[1..])) == port'.gone + Messages(port'.items);
    Establish(s, t, p, 1, 0, 0, 0);
    HoldingInv(t, p);
  }

  // ---------- Waiting ----------

  /** `wait` without blocking: the caller now holds what it waited for. */
  lemma WaitPasses(s: State, t: State, p: int, pid: Pid, sender: bool)
    requires Inv(s) && GoodId(p) && s.ports[p].state == ALLOC && Semaphore(s.ports[p], sender).count > 0
    requires t == if sender then s.(ports := s.ports[p := s.ports[p].(ssem := SemWait(s.ports[p].ssem, pid))])
                  else s.(ports := s.ports[p := s.ports[p].(rsem := SemWait(s.ports[p].rsem, pid))])
    ensures Holding(t, p, if sender then 0 else 1, if sender then 1 else 0)
  {
    hide QueueOK, PendOK;
    assert PortOK(s, p);
    SameQueues(s, t, p);
    PendKept(s, t, p);
    Establish(s, t, p, 0, 0, if sender then 0 else 1, if sender then 1 else 0);
  }

  /** `wait` that blocks: the caller joins the queue. */
  lemma WaitBlocks(s: State, t: State, p: int, pid: Pid, kind: Kind)
    requires Inv(s) && GoodId(p) && s.ports[p].state == ALLOC && pid !in s.pend
    requires Semaphore(s.ports[p], kind.Sending?).count <= 0
    requires t.pend == s.pend[pid := Pending(p, s.ports[p].seqno, kind, false)] && t.nextid == s.nextid
    requires t.ports == if kind.Sending? then s.ports[p := s.ports[p].(ssem := SemWait(s.ports[p].ssem, pid))]
                        else s.ports[p := s.ports[p].(rsem := SemWait(s.ports[p].rsem, pid))]
    ensures Inv(t)
  {
    hide PendOK;
    assert PortOK(s, p);
    QueuesPlus(s, t, p, pid, kind.Sending?);
    assert Released(t, p, true) == Released(s, p, true) && Released(t, p, false) == Released(s, p, false);
    forall q | q in t.pend && t.pend[q].port == p ensures PendOK(t, q) {
      if q == pid { PendFresh(t, q); } else { PendSame(s, t, q); }
    }
    Establish(s, t, p, 0, 0, 0, 0);
    HoldingInv(t, p);
  }

  lemma PendFresh(t: State, pid: Pid)
    requires |t.ports| == NPORTS && pid in t.pend && GoodId(t.pend[pid].port)
    requires t.ports[t.pend[pid].port].state == ALLOC && t.pend[pid].seqno == t.ports[t.pend[pid].port].seqno
    ensures PendOK(t, pid)
  {
  }

  lemma PendSame(s: State, t: State, pid: Pid)
    requires |s.ports| == |t.ports| == NPORTS && pid in s.pend && pid in t.pend && PendOK(s, pid)
    requires t.pend[pid] == s.pend[pid]
    requires var p := s.pend[pid].port;
             t.ports[p].state == s.ports[p].state && t.ports[p].seqno == s.ports[p].seqno
    ensures PendOK(t, pid)
  {
  }

  lemma QueuesPlus(s: State, t: State, p: int, pid: Pid, sender: bool)
    requires |s.ports| == |t.ports| == NPORTS && GoodId(p) && QueueOK(s, p, true) && QueueOK(s, p, false)
    requires pid !in s.pend && t.pend.Keys == s.pend.Keys + {pid} && IsBlocked(t.pend[pid], p, sender)
    requires forall q :: q in s.pend ==> t.pend[q] == s.pend[q]
    requires Queue(t.ports[p], sender) == Queue(s.ports[p], sender) + [pid]
    requires Queue(t.ports[p], !sender) == Queue(s.ports[p], !sender)
    ensures QueueOK(t, p, true) && QueueOK(t, p, false)
  {
    var other := !sender;
    assert QueuedIffBlocked(s, p, sender, pid) && QueuedIffBlocked(s, p, other, pid);
    forall q ensures QueuedIffBlocked(t, p, sender, q) { assert QueuedIffBlocked(s, p, sender, q); }
    forall q ensures QueuedIffBlocked(t, p, other, q) { assert QueuedIffBlocked(s, p, other, q); }
    NoDupMore(Queue(s.ports[p], sender), pid);
    assert QueueOK(t, p, sender) && QueueOK(t, p, other);
  }

  // ---------- Running again after a wait ----------

  /** A process that entered at `seqno` takes the port for unchanged, but its accession number has come round
      to the same 32 bits. */
  predicate Wrapped(port: Port, seqno: int) {
    port.state == ALLOC && port.seqno != seqno && (port.seqno - seqno) % SEQS == 0
  }

  /** The event is not the resumption of such a process. */
  predicate Unwrapped(s: State, e: Event)
    requires |s.ports| == NPORTS
  {
    e.EvResume? && e.pid in s.pend && GoodId(s.pend[e.pid].port) ==>
      !Wrapped(s.ports[s.pend[e.pid].port], s.pend[e.pid].seqno)
  }

  /** The comparison of 32-bit sequence numbers finds every clearing in between exactly when fewer than 2^32
      of them, or no multiple of 2^32, have happened. */
  lemma StaleFoundIff(now: int, entry: int)
    requires entry <= now
    ensures now % SEQS == entry % SEQS <==> (now - entry) % SEQS == 0
    ensures now - entry < SEQS ==> (now % SEQS == entry % SEQS <==> now == entry)
  {
    var d := now - entry;
    var a, b := now / SEQS, entry / SEQS;
    assert d == (a - b) * SEQS + (now % SEQS - entry % SEQS);
    if now % SEQS == entry % SEQS {
      assert d == (a - b) * SEQS;
      MultipleOf(a - b);
    }
    if d % SEQS == 0 {
      var k := d / SEQS;
      assert now == entry + k * SEQS;
      assert now % SEQS == entry % SEQS by { ShiftMod(entry, k); }
    }
  }

  lemma MultipleOf(k: int)
    ensures (k * SEQS) % SEQS == 0
  {
  }

  lemma ShiftMod(x: int, k: int)
    ensures (x + k * SEQS) % SEQS == x % SEQS
  {
  }

  /** The test after `wait` passes exactly for processes that entered the port as it is now, and for those whose
      accession number has come round. */
  lemma SameSeqMeaning(s: State, pid: Pid)
    requires |s.ports| == NPORTS && pid in s.pend && PendOK(s, pid)
    ensures
      var port, seqno := s.ports[s.pend[pid].port], s.pend[pid].seqno;
      SameSeq(port, seqno) <==> port.seqno == seqno || Wrapped(port, seqno)
  {
    StaleFoundIff(s.ports[s.pend[pid].port].seqno, s.pend[pid].seqno);
  }

  /** A released process that finds the port unchanged holds what it waited for. */
  lemma ReleasedHolds(s: State, pid: Pid)
    requires Inv(s) && pid in s.pend && s.pend[pid].released
    requires s.ports[s.pend[pid].port].seqno == s.pend[pid].seqno
    ensures
      var c := s.pend[pid];
      Holding(s.(pend := s.pend - {pid}), c.port, if c.kind.Sending? then 0 else 1, if c.kind.Sending? then 1 else 0)
  {
    hide PendOK, QueueOK;
    var c := s.pend[pid];
    var p, snd := c.port, c.kind.Sending?;
    var t := s.(pend := s.pend - {pid});
    PendHere(s, pid);
    assert PortOK(s, p);
    QueuesMinus(s, t, p, pid);
    assert Released(t, p, snd) == Released(s, p, snd) - {pid} && pid in Released(s, p, snd);
    assert Released(t, p, !snd) == Released(s, p, !snd);
    PendKept(s, t, p);
    Establish(s, t, p, 0, 0, if snd then 0 else 1, if snd then 1 else 0);
  }

  lemma PendHere(s: State, pid: Pid)
    requires Inv(s) && pid in s.pend
    ensures GoodId(s.pend[pid].port) && s.pend[pid].seqno <= s.ports[s.pend[pid].port].seqno
    ensures s.pend[pid].seqno == s.ports[s.pend[pid].port].seqno ==> s.ports[s.pend[pid].port].state == ALLOC
  {
    assert PendOK(s, pid);
  }

  lemma QueuesMinus(s: State, t: State, p: int, pid: Pid)
    requires |s.ports| == |t.ports| == NPORTS && GoodId(p) && QueueOK(s, p, true) && QueueOK(s, p, false)
    requires pid in s.pend && s.pend[pid].released && t.pend == s.pend - {pid} && t.ports == s.ports
    ensures QueueOK(t, p, true) && QueueOK(t, p, false)
  {
    forall q ensures QueuedIffBlocked(t, p, true, q) { assert QueuedIffBlocked(s, p, true, q); }
    forall q ensures QueuedIffBlocked(t, p, false, q) { assert QueuedIffBlocked(s, p, false, q); }
  }

  /** A released process that entered before a clearing leaves without a trace. */
  lemma StaleLeaves(s: State, pid: Pid)
    requires Inv(s) && pid in s.pend && s.pend[pid].released
    requires s.ports[s.pend[pid].port].seqno != s.pend[pid].seqno
    ensures Inv(s.(pend := s.pend - {pid}))
  {
    hide PendOK, QueueOK;
    var p := s.pend[pid].port;
    var t := s.(pend := s.pend - {pid});
    PendHere(s, pid);
    assert PortOK(s, p);
    QueuesMinus(s, t, p, pid);
    assert Released(t, p, true) == Released(s, p, true) && Released(t, p, false) == Released(s, p, false);
    PendKept(s, t, p);
    Establish(s, t, p, 0, 0, 0, 0);
    HoldingInv(t, p);
  }

  // ---------- Clearing, creating, killing ----------

  lemma ClearStartKeeps(s: State, p: int, delete: bool)
    requires Inv(s) && GoodId(p) && s.ports[p].state == ALLOC
    ensures Inv(ClearStart(s, p, delete).s)
  {
    hide QueueOK;
    var t := ClearStart(s, p, delete).s;
    assert PortOK(s, p);
    SamePend(s, t, p);
    forall pid | pid in t.pend && t.pend[pid].port == p ensures PendOK(t, pid) { assert PendOK(s, pid); }
    Establish(s, t, p, 0, 0, 0, 0);
    HoldingInv(t, p);
  }

  lemma SamePend(s: State, t: State, p: int)
    requires |s.ports| == |t.ports| == NPORTS && GoodId(p) && QueueOK(s, p, true) && QueueOK(s, p, false)
    requires t.pend == s.pend
    requires t.ports[p].ssem.queue == s.ports[p].ssem.queue && t.ports[p].rsem.queue == s.ports[p].rsem.queue
    ensures QueueOK(t, p, true) && QueueOK(t, p, false)
  {
    forall pid ensures QueuedIffBlocked(t, p, true, pid) { assert QueuedIffBlocked(s, p, true, pid); }
    forall pid ensures QueuedIffBlocked(t, p, false, pid) { assert QueuedIffBlocked(s, p, false, pid); }
  }

  /** Releasing a whole queue. */
  lemma WakeAll(s: State, t: State, p: int, sender: bool)
    requires |s.ports| == |t.ports| == NPORTS && GoodId(p) && QueueOK(s, p, true) && QueueOK(s, p, false)
    requires t.pend == Wake(s.pend, Queue(s.ports[p], sender))
    requires Queue(t.ports[p], sender) == []
    requires Queue(t.ports[p], !sender) == Queue(s.ports[p], !sender)
    ensures QueueOK(t, p, true) && QueueOK(t, p, false)
    ensures forall pid :: SameEntry(s, t, p, pid)
    ensures forall pid :: pid in t.pend && t.pend[pid].port == p ==>
              pid in s.pend && t.pend[pid] == s.pend[pid].(released := t.pend[pid].released)
                            && (s.pend[pid].released ==> t.pend[pid].released)
  {
    var other := !sender;
    forall pid ensures QueuedIffBlocked(t, p, sender, pid) { assert QueuedIffBlocked(s, p, sender, pid); }
    forall pid ensures QueuedIffBlocked(t, p, other, pid) {
      assert QueuedIffBlocked(s, p, other, pid) && QueuedIffBlocked(s, p, sender, pid);
    }
    assert QueueOK(t, p, sender) && QueueOK(t, p, other);
    forall pid ensures SameEntry(s, t, p, pid) { assert QueuedIffBlocked(s, p, sender, pid); }
  }

  lemma ClearSendersKeeps(s: State, p: int)
    requires Inv(s) && GoodId(p) && s.ports[p].stage.Draining?
    ensures Inv(ClearSenders(s, p))
  {
    hide QueueOK, PendOK;
    var t := ClearSenders(s, p);
    assert PortOK(s, p);
    WakeAll(s, t, p, true);
    PendKept(s, t, p);
    assert t.ports[p].gone + Messages([]) == t.ports[p].gone;
    Establish(s, t, p, 0, 0, 0, 0);
    HoldingInv(t, p);
  }

  lemma ClearReceiversKeeps(s: State, p: int)
    requires Inv(s) && GoodId(p) && s.ports[p].stage.SendersFreed?
    ensures Inv(ClearReceivers(s, p))
  {
    hide QueueOK, PendOK;
    var t := ClearReceivers(s, p);
    assert PortOK(s, p);
    WakeAll(s, t, p, false);
    PendKept(s, t, p);
    Establish(s, t, p, 0, 0, 0, 0);
    HoldingInv(t, p);
  }

  lemma NoneBlocked(s: State, p: int, pid: Pid)
    requires |s.ports| == NPORTS && GoodId(p) && QueueOK(s, p, true) && QueueOK(s, p, false)
    requires s.ports[p].ssem.queue == [] && s.ports[p].rsem.queue == []
    requires pid in s.pend && s.pend[pid].port == p
    ensures s.pend[pid].released
  {
    assert QueuedIffBlocked(s, p, true, pid) && QueuedIffBlocked(s, p, false, pid);
  }

  lemma ClearEndKeeps(s: State, p: int)
    requires Inv(s) && GoodId(p) && s.ports[p].stage.ReceiversFreed?
    ensures Inv(ClearEnd(s, p))
  {
    hide QueueOK;
    var t := ClearEnd(s, p);
    assert PortOK(s, p);
    SamePend(s, t, p);
    forall pid | pid in t.pend && t.pend[pid].port == p ensures PendOK(t, pid) && t.pend[pid].seqno < t.ports[p].seqno {
      assert PendOK(s, pid);
      NoneBlocked(s, p, pid);
    }
    NoneReleased(t, p);
    Establish(s, t, p, 0, 0, 0, 0);
    HoldingInv(t, p);
  }

  lemma PortHere(s: State, p: int)
    requires Inv(s) && GoodId(p)
    ensures |s.ports| == NPORTS && Shape(s.ports[p]) && QueueOK(s, p, true) && QueueOK(s, p, false)
    ensures s.ports[p].state == ALLOC ==> Balance(s, p, 0, 0)
  {
    assert PortOK(s, p);
  }

  lemma NoneReleased(t: State, p: int)
    requires 0 <= p < |t.ports|
    requires forall pid :: pid in t.pend && t.pend[pid].port == p ==> t.pend[pid].seqno < t.ports[p].seqno
    ensures |Released(t, p, true)| == 0 && |Released(t, p, false)| == 0
  {
    forall snd: bool ensures Released(t, p, snd) == {} {
      forall pid ensures pid !in Released(t, p, snd) { }
    }
  }

  lemma CreateKeeps(s: State, count: int)
    requires Inv(s)
    ensures Inv(Create(s, count).s)
  {
    hide QueueOK, Scan, PortHeld;
    var r := Create(s, count);
    if r.reply.NewPort? {
      var t, p := r.s, r.reply.id;
      PortHere(s, p);
      assert PortOK(s, p);
      SamePend(s, t, p);
      forall pid | pid in t.pend && t.pend[pid].port == p
        ensures PendOK(t, pid) && t.pend[pid].seqno < t.ports[p].seqno
      {
        assert PendOK(s, pid);
        NoneBlocked(s, p, pid);
      }
      NoneReleased(t, p);
      CreatedHolds(s, t, p);
      Establish(s, t, p, 0, 0, 0, 0);
      HoldingInv(t, p);
    }
  }

  lemma CreatedHolds(s: State, t: State, p: int)
    requires |s.ports| == |t.ports| == NPORTS && GoodId(p) && Shape(s.ports[p])
    requires t.ports[p].state == ALLOC && t.ports[p].stage.Idle? && t.ports[p].items == [] && s.ports[p].items == []
    requires t.ports[p].rsem == Sem(0, []) && t.ports[p].ssem == Sem(t.ports[p].cap, []) && t.ports[p].cap >= 0
    requires 0 <= t.ports[p].maxcnt < MAXCNT && t.ports[p].sent == s.ports[p].sent && t.ports[p].gone == s.ports[p].gone
    requires QueueOK(t, p, true) && QueueOK(t, p, false)
    requires |Released(t, p, true)| == 0 && |Released(t, p, false)| == 0
    ensures PortHeld(t, p, 0, 0)
  {
    hide QueueOK;
  }

  lemma KillKeeps(s: State, pid: Pid)
    requires Inv(s) && pid in s.pend && !s.pend[pid].released
    ensures GoodId(s.pend[pid].port) && Inv(Kill(s, pid))
  {
    hide PendOK;
    PendHere(s, pid);
    var c := s.pend[pid];
    var p, snd := c.port, c.kind.Sending?;
    var t := Kill(s, pid);
    assert PortOK(s, p);
    QueuesKill(s, t, p, pid);
    assert Released(t, p, true) == Released(s, p, true) && Released(t, p, false) == Released(s, p, false);
    PendKept(s, t, p);
    hide QueueOK;
    Establish(s, t, p, 0, 0, 0, 0);
    HoldingInv(t, p);
  }

  lemma QueuesKill(s: State, t: State, p: int, pid: Pid)
    requires |s.ports| == |t.ports| == NPORTS && GoodId(p) && QueueOK(s, p, true) && QueueOK(s, p, false)
    requires pid in s.pend && !s.pend[pid].released && s.pend[pid].port == p && t.pend == s.pend - {pid}
    requires
      var snd := s.pend[pid].kind.Sending?;
      && Queue(t.ports[p], snd) == Without(Queue(s.ports[p], snd), pid)
      && Queue(t.ports[p], !snd) == Queue(s.ports[p], !snd)
    ensures QueueOK(t, p, true) && QueueOK(t, p, false)
    ensures
      var snd := s.pend[pid].kind.Sending?;
      |Queue(t.ports[p], snd)| == |Queue(s.ports[p], snd)| - 1
  {
    var snd := s.pend[pid].kind.Sending?;
    var other := !snd;
    assert QueuedIffBlocked(s, p, snd, pid);
    WithoutOne(Queue(s.ports[p], snd), pid);
    forall q ensures QueuedIffBlocked(t, p, snd, q) { assert QueuedIffBlocked(s, p, snd, q); }
    forall q ensures QueuedIffBlocked(t, p, other, q) { assert QueuedIffBlocked(s, p, other, q); }
    assert QueueOK(t, p, snd) && QueueOK(t, p, other);
  }

  // ---------- Every event keeps the invariant ----------

  lemma SendCallKeeps(s: State, pid: Pid, p: int, msg: Message)
    requires Inv(s) && pid !in s.pend
    ensures
      var r := SendCall(s, pid, p, msg);
      !r.NullDereference? && (r.Panic? ==> s.free == []) && (r.Done? || r.Blocked? ==> Inv(r.s))
  {
    hide Inv, Holding, SendTail;
    InvSize(s);
    if GoodId(p) && s.ports[p].state == ALLOC {
      var port := s.ports[p];
      var t := s.(ports := s.ports[p := port.(ssem := SemWait(port.ssem, pid))]);
      if port.ssem.count - 1 < 0 {
        WaitBlocks(s, t.(pend := t.pend[pid := Pending(p, port.seqno, Sending(msg), false)]), p, pid, Sending(msg));
      } else {
        WaitPasses(s, t, p, pid, true);
        TailEnds(t, p, msg);
        if t.free != [] { SendTailKeeps(t, p, msg); }
      }
    }
  }

  lemma InvSize(s: State)
    requires Inv(s)
    ensures |s.ports| == NPORTS && GoodId(s.nextid)
  {
  }

  lemma TailEnds(t: State, p: int, msg: Message)
    requires |t.ports| == NPORTS && GoodId(p)
    ensures SendTail(t, p, msg).Panic? <==> t.free == []
    ensures t.free != [] ==> SendTail(t, p, msg).Done?
  {
  }

  lemma RecvCallKeeps(s: State, pid: Pid, p: int)
    requires Inv(s) && pid !in s.pend
    ensures
      var r := RecvCall(s, pid, p);
      (r.Done? || r.Blocked?) && Inv(r.s)
  {
    hide Inv, Holding, RecvTail;
    InvSize(s);
    if GoodId(p) && s.ports[p].state == ALLOC {
      var port := s.ports[p];
      var t := s.(ports := s.ports[p := port.(rsem := SemWait(port.rsem, pid))]);
      if port.rsem.count - 1 < 0 {
        WaitBlocks(s, t.(pend := t.pend[pid := Pending(p, port.seqno, Receiving, false)]), p, pid, Receiving);
      } else {
        WaitPasses(s, t, p, pid, false);
        RecvTailKeeps(t, p);
      }
    }
  }

  lemma ResumeKeeps(s: State, pid: Pid)
    requires Inv(s) && pid in s.pend && s.pend[pid].released && GoodId(s.pend[pid].port)
    requires !Wrapped(s.ports[s.pend[pid].port], s.pend[pid].seqno)
    ensures
      var r := Resume(s, pid);
      !r.NullDereference? && (r.Panic? ==> s.free == []) && (r.Done? || r.Blocked? ==> Inv(r.s))
  {
    hide Inv, Holding, RecvTail, SendTail, PendOK, Wrapped;
    var c := s.pend[pid];
    var t := s.(pend := s.pend - {pid});
    ResumeTest(s, pid);
    if !SameSeq(s.ports[c.port], c.seqno) {
      StaleLeaves(s, pid);
    } else {
      ReleasedHolds(s, pid);
      if c.kind.Sending? {
        TailEnds(t, c.port, c.kind.msg);
        if t.free != [] { SendTailKeeps(t, c.port, c.kind.msg); }
      } else {
        RecvTailKeeps(t, c.port);
      }
    }
  }

  lemma ResumeTest(s: State, pid: Pid)
    requires Inv(s) && pid in s.pend
    ensures |s.ports| == NPORTS && GoodId(s.pend[pid].port)
    ensures
      var port, seqno := s.ports[s.pend[pid].port], s.pend[pid].seqno;
      && (SameSeq(port, seqno) <==> port.seqno == seqno || Wrapped(port, seqno))
      && (port.seqno == seqno ==> port.state == ALLOC)
  {
    assert PendOK(s, pid);
    SameSeqMeaning(s, pid);
  }

  /** A process that gets through although its port was cleared breaks the balance of the port: it adds or takes
      a message that no semaphore granted. */
  lemma WrappedBreaks(s: State, pid: Pid)
    requires Inv(s) && pid in s.pend && s.pend[pid].released && GoodId(s.pend[pid].port)
    requires Wrapped(s.ports[s.pend[pid].port], s.pend[pid].seqno) && Goes(Resume(s, pid))
    ensures !Inv(Resume(s, pid).s)
  {
    hide Inv, PendOK, QueueOK;
    var c := s.pend[pid];
    var p, snd := c.port, c.kind.Sending?;
    PendHere(s, pid);
    ResumeTest(s, pid);
    PortHere(s, p);
    var t := s.(pend := s.pend - {pid});
    var u := Resume(s, pid).s;
    assert Released(t, p, snd) == Released(s, p, snd);
    WokenKind(s, p, !snd);
    TailReleased(t, u, p, snd);
    if Inv(u) { PortHere(u, p); }
  }

  lemma WokenKind(s: State, p: int, sender: bool)
    requires |s.ports| == NPORTS && GoodId(p) && QueueOK(s, p, true) && QueueOK(s, p, false)
    ensures forall pid :: pid in Woken(Semaphore(s.ports[p], sender)) && pid in s.pend ==>
              s.pend[pid].kind.Sending? == sender
  {
    forall pid | pid in Woken(Semaphore(s.ports[p], sender)) && pid in s.pend
      ensures s.pend[pid].kind.Sending? == sender
    {
      assert QueuedIffBlocked(s, p, sender, pid);
    }
  }

  /** Waking the other side does not change who is released on this one. */
  lemma TailReleased(t: State, u: State, p: int, sender: bool)
    requires |t.ports| == |u.ports| == NPORTS && GoodId(p) && u.ports[p].seqno == t.ports[p].seqno
    requires u.pend == Wake(t.pend, Woken(Semaphore(t.ports[p], !sender)))
    requires forall pid :: pid in Woken(Semaphore(t.ports[p], !sender)) && pid in t.pend ==>
              t.pend[pid].kind.Sending? != sender
    ensures Released(u, p, sender) == Released(t, p, sender)
  {
    forall pid ensures pid in Released(u, p, sender) <==> pid in Released(t, p, sender) { }
  }

  /** No event follows a null list head, only a lack of message nodes can panic, and every other event keeps
      the invariant: messages balance receivers, places balance senders, no port holds more than it admits. */
  lemma StepKeeps(s: State, e: Event)
    requires Inv(s) && Enabled(s, e) && Unwrapped(s, e)
    ensures
      var r := Step(s, e);
      !r.NullDereference? && (r.Panic? ==> s.free == []) && (r.Done? || r.Blocked? ==> Inv(r.s))
  {
    hide Inv, SendCall, RecvCall, Resume, Create, Kill, Wrapped;
    InvSize(s);
    match e
    case EvSend(pid, p, m) => SendCallKeeps(s, pid, p, m);
    case EvRecv(pid, p) => RecvCallKeeps(s, pid, p);
    case EvResume(pid) => ResumeKeeps(s, pid);
    case EvClear(p, d) => if GoodId(p) && s.ports[p].state == ALLOC { ClearStartKeeps(s, p, d); }
    case EvClearSenders(p) => ClearSendersKeeps(s, p);
    case EvClearReceivers(p) => ClearReceiversKeeps(s, p);
    case EvClearEnd(p) => ClearEndKeeps(s, p);
    case EvCreate(n) => CreateKeeps(s, n); CreateDone(s, n);
    case EvKill(pid) => KillKeeps(s, pid);
  }

  /** ... and it keeps the invariant exactly if it is not the resumption of a process whose accession number has
      come round; nothing else can follow a null list head. */
  lemma StepKeepsIff(s: State, e: Event)
    requires Inv(s) && Enabled(s, e)
    ensures Goes(Step(s, e)) ==> (Inv(Step(s, e).s) <==> Unwrapped(s, e))
    ensures Step(s, e).NullDereference? ==> !Unwrapped(s, e)
  {
    hide Inv, SendCall, RecvCall, Resume, Create, Kill, Wrapped;
    InvSize(s);
    if Unwrapped(s, e) {
      StepKeeps(s, e);
    } else if Goes(Step(s, e)) {
      WrappedBreaks(s, e.pid);
    }
  }

  lemma CreateDone(s: State, count: int)
    requires |s.ports| == NPORTS && GoodId(s.nextid)
    ensures Create(s, count).Done?
  {
  }

  // ---------- Runs ----------

  predicate Goes(r: Result) {
    r.Done? || r.Blocked?
  }

  /** The events of `es` can happen one after the other from `s`, with no panic and no null pointer. */
  ghost predicate Path(s: State, es: seq<Event>)
    decreases |es|
  {
    es == [] || (|s.ports| == NPORTS && Enabled(s, es[0]) && Goes(Step(s, es[0])) && Path(Step(s, es[0]).s, es[1..]))
  }

  ghost function Run(s: State, es: seq<Event>): State
    requires Path(s, es)
    decreases |es|
  {
    if es == [] then s else Run(Step(s, es[0]).s, es[1..])
  }

  /** No process of the run goes on at a moment when its accession number has come round. */
  ghost predicate NoWrap(s: State, es: seq<Event>)
    requires Path(s, es)
    decreases |es|
  {
    es == [] || (Unwrapped(s, es[0]) && NoWrap(Step(s, es[0]).s, es[1..]))
  }

  ghost predicate InvThroughout(s: State, es: seq<Event>)
    requires Path(s, es)
    decreases |es|
  {
    Inv(s) && (es != [] ==> InvThroughout(Step(s, es[0]).s, es[1..]))
  }

  /** The invariant holds all along a run exactly if no accession number comes round in it. */
  lemma {:induction false} RunKeepsIff(s: State, es: seq<Event>)
    requires Inv(s) && Path(s, es)
    ensures InvThroughout(s, es) <==> NoWrap(s, es)
    decreases |es|
  {
    hide Inv, Step, Unwrapped;
    if es != [] {
      StepKeepsIff(s, es[0]);
      if Unwrapped(s, es[0]) {
        RunKeepsIff(Step(s, es[0]).s, es[1..]);
      }
    }
  }

  lemma {:induction false} RunKeeps(s: State, es: seq<Event>)
    requires Inv(s) && Path(s, es) && NoWrap(s, es)
    ensures Inv(Run(s, es))
    decreases |es|
  {
    hide Inv, Step, Unwrapped;
    if es != [] {
      StepKeeps(s, es[0]);
      RunKeeps(Step(s, es[0]).s, es[1..]);
    }
  }

  // ---------- What no history can break ----------

  lemma TidyMessages(a: seq<Message>, b: seq<Message>, c: seq<Message>)
    ensures a + (b + c) == a + b + c
  {
  }

  lemma SendTailOrderly(s: State, p: int, msg: Message)
    requires Orderly(s) && GoodId(p) && s.ports[p].state == ALLOC && Goes(SendTail(s, p, msg))
    ensures Orderly(SendTail(s, p, msg).s)
  {
    assert TidyAt(s, p);
    var port := s.ports[p];
    MessagesAppend(port.items, Item(s.free[0], msg));
    TidyMessages(port.gone, Messages(port.items), [msg]);
    OneTidy(s, SendTail(s, p, msg).s, p);
  }

  lemma RecvTailOrderly(s: State, p: int)
    requires Orderly(s) && GoodId(p) && s.ports[p].state == ALLOC && Goes(RecvTail(s, p))
    ensures Orderly(RecvTail(s, p).s)
  {
    assert TidyAt(s, p);
    var port := s.ports[p];
    MessagesHead(port.items);
    TidyMessages(port.gone, [port.items[0].msg], Messages(port.items[1..]));
    OneTidy(s, RecvTail(s, p).s, p);
  }

  /** Only port `p` has changed. */
  lemma OneTidy(s: State, t: State, p: int)
    requires Orderly(s) && GoodId(p) && |t.ports| == NPORTS && GoodId(t.nextid) && Tidy(t.ports[p])
    requires forall q :: 0 <= q < NPORTS && q != p ==> t.ports[q] == s.ports[q]
    ensures Orderly(t)
  {
    forall q | 0 <= q < NPORTS ensures TidyAt(t, q) { assert TidyAt(s, q); }
  }

  lemma TidyHere(s: State, p: int)
    requires Orderly(s) && GoodId(p)
    ensures |s.ports| == NPORTS && Tidy(s.ports[p])
  {
    assert TidyAt(s, p);
  }

  lemma InvOrderly(s: State)
    requires Inv(s)
    ensures Orderly(s)
  {
    hide QueueOK, Balance;
    forall p | 0 <= p < NPORTS ensures TidyAt(s, p) { assert PortOK(s, p); }
  }

  lemma StepOrderly(s: State, e: Event)
    requires Orderly(s) && Enabled(s, e) && Goes(Step(s, e))
    ensures Orderly(Step(s, e).s)
  {
    hide Orderly, Tidy, SendTail, RecvTail, Scan;
    OrderlySize(s);
    var t := Step(s, e).s;
    match e
    case EvSend(pid, p, m) =>
      if GoodId(p) && s.ports[p].state == ALLOC {
        WaitTidy(s, s.(ports := s.ports[p := s.ports[p].(ssem := SemWait(s.ports[p].ssem, pid))]), p);
        if s.ports[p].ssem.count - 1 < 0 { WaitTidy(s, t, p); } else {
          SendTailOrderly(s.(ports := s.ports[p := s.ports[p].(ssem := SemWait(s.ports[p].ssem, pid))]), p, m);
        }
      }
    case EvRecv(pid, p) =>
      if GoodId(p) && s.ports[p].state == ALLOC {
        WaitTidy(s, s.(ports := s.ports[p := s.ports[p].(rsem := SemWait(s.ports[p].rsem, pid))]), p);
        if s.ports[p].rsem.count - 1 < 0 { WaitTidy(s, t, p); } else {
          RecvTailOrderly(s.(ports := s.ports[p := s.ports[p].(rsem := SemWait(s.ports[p].rsem, pid))]), p);
        }
      }
    case EvResume(pid) =>
      var c := s.pend[pid];
      var u := s.(pend := s.pend - {pid});
      WaitTidy(s, u, c.port);
      if SameSeq(s.ports[c.port], c.seqno) {
        if c.kind.Sending? { SendTailOrderly(u, c.port, c.kind.msg); } else { RecvTailOrderly(u, c.port); }
      }
    case EvClear(p, d) => if GoodId(p) && s.ports[p].state == ALLOC { ClearTidy(s, e, p); }
    case EvClearSenders(p) => ClearTidy(s, e, p);
    case EvClearReceivers(p) => ClearTidy(s, e, p);
    case EvClearEnd(p) => ClearTidy(s, e, p);
    case EvCreate(n) => CreateTidy(s, n);
    case EvKill(pid) => WaitTidy(s, t, s.pend[pid].port);
  }

  lemma OrderlySize(s: State)
    requires Orderly(s)
    ensures |s.ports| == NPORTS && GoodId(s.nextid)
  {
  }

  /** Semaphores and processes do not matter. */
  lemma WaitTidy(s: State, t: State, p: int)
    requires Orderly(s) && GoodId(p) && |t.ports| == NPORTS && t.nextid == s.nextid
    requires t.ports == s.ports[p := s.ports[p].(ssem := t.ports[p].ssem, rsem := t.ports[p].rsem)]
    ensures Orderly(t)
  {
    TidyHere(s, p);
    OneTidy(s, t, p);
  }

  lemma ClearTidy(s: State, e: Event, p: int)
    requires Orderly(s) && Enabled(s, e) && GoodId(p) && (e.EvClear? ==> s.ports[p].state == ALLOC)
    requires (e.EvClear? || e.EvClearSenders? || e.EvClearReceivers? || e.EvClearEnd?) && e.port == p
    ensures Goes(Step(s, e)) && Orderly(Step(s, e).s)
  {
    TidyHere(s, p);
    var t := Step(s, e).s;
    assert t.ports[p].gone + Messages([]) == t.ports[p].gone;
    OneTidy(s, t, p);
  }

  lemma CreateTidy(s: State, count: int)
    requires Orderly(s)
    ensures Create(s, count).Done? && Orderly(Create(s, count).s)
  {
    hide Scan;
    var r := Create(s, count);
    if r.reply.NewPort? {
      TidyHere(s, r.reply.id);
      OneTidy(s, r.s, r.reply.id);
    }
  }

  lemma {:induction false} RunOrderly(s: State, es: seq<Event>)
    requires Orderly(s) && Path(s, es)
    ensures Orderly(Run(s, es))
    decreases |es|
  {
    hide Orderly, Step;
    if es != [] {
      StepOrderly(s, es[0]);
      RunOrderly(Step(s, es[0]).s, es[1..]);
    }
  }

  /** ptinit: every port free, every node on the free list. */
  function Start(maxmsgs: nat): State {
    State(seq(NPORTS, _ => Port(FREE, Idle, Sem(0, []), Sem(0, []), 0, 0, 0, [], [], [])),
          seq(maxmsgs, i => i), map[], 0)
  }

  lemma StartInv(maxmsgs: nat)
    ensures Inv(Start(maxmsgs)) && Orderly(Start(maxmsgs))
  {
    var s := Start(maxmsgs);
    forall p | 0 <= p < NPORTS ensures PortOK(s, p) {
      forall pid ensures QueuedIffBlocked(s, p, true, pid) && QueuedIffBlocked(s, p, false, pid) { }
    }
    InvOrderly(s);
  }

  /** In every state reached without an accession number coming round, an allocated port holds at most as many
      messages as it admits; a released receiver has a message to take and a released sender has room. */
  lemma PortBounds(maxmsgs: nat, es: seq<Event>, p: int)
    requires Path(Start(maxmsgs), es) && NoWrap(Start(maxmsgs), es) && GoodId(p)
    ensures
      var s := Run(Start(maxmsgs), es);
      && |s.ports| == NPORTS
      && (s.ports[p].state == ALLOC ==>
            && |s.ports[p].items| <= s.ports[p].cap
            && |s.ports[p].items| == Positive(s.ports[p].rsem.count) + |Released(s, p, false)|
            && s.ports[p].cap - |s.ports[p].items| == Positive(s.ports[p].ssem.count) + |Released(s, p, true)|)
  {
    hide Path, Run, NoWrap;
    StartInv(maxmsgs);
    RunKeeps(Start(maxmsgs), es);
    PortHere(Run(Start(maxmsgs), es), p);
  }
}
