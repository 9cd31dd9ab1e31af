/** What runs of the port protocol promise: message nodes are conserved and suffice, messages leave in the
    order they came, and a process that entered before a reset or deletion never touches the port again. */
module PortRuns {
  import opened PortProtocol
  import opened PortSafety

  // ---------- Message nodes ----------

  /** How often a node occurs in a list. */
  function Times(nodes: seq<int>, n: int): nat {
    multiset(nodes)[n]
  }

  function HeldTimes(ports: seq<Port>, n: int): nat {
    if ports == [] then 0 else Times(Nodes(ports[0].items), n) + HeldTimes(ports[1..], n)
  }

  /** The number of places node `n` is in: on the free list, and in the lists of the ports. */
  function Places(s: State, n: int): nat {
    Times(s.free, n) + HeldTimes(s.ports, n)
  }

  function HeldCount(ports: seq<Port>): nat {
    if ports == [] then 0 else |ports[0].items| + HeldCount(ports[1..])
  }

  /** The number of nodes, free or holding a message. */
  function NodeCount(s: State): nat {
    |s.free| + HeldCount(s.ports)
  }

  lemma {:induction false} HeldUpdate(ports: seq<Port>, p: int, port: Port, n: int)
    requires 0 <= p < |ports|
    ensures HeldTimes(ports[p := port], n) + Times(Nodes(ports[p].items), n) == HeldTimes(ports, n)
              + Times(Nodes(port.items), n)
    ensures HeldCount(ports[p := port]) + |ports[p].items| == HeldCount(ports) + |port.items|
  {
    hide Times, Nodes;
    var ports' := ports[p := port];
    if p > 0 {
      HeldUpdate(ports[1..], p - 1, port, n);
      assert ports'[1..] == ports[1..][p - 1 := port];
    } else {
      assert ports'[1..] == ports[1..];
    }
  }

  lemma TimesParts(a: seq<int>, b: seq<int>, n: int)
    ensures Times(a + b, n) == Times(a, n) + Times(b, n)
  {
  }

  ghost predicate SameNodes(s: State, t: State, n: int) {
    Places(t, n) == Places(s, n) && NodeCount(t) == NodeCount(s)
  }

  lemma SendTailNodes(s: State, p: int, msg: Message, n: int)
    requires GoodId(p) && |s.ports| == NPORTS && s.free != []
    ensures SameNodes(s, SendTail(s, p, msg).s, n)
  {
    hide Times, HeldTimes, HeldCount, Wake, Nodes;
    HeldUpdate(s.ports, p, SendTail(s, p, msg).s.ports[p], n);
    MessagesAppend(s.ports[p].items, Item(s.free[0], msg));
    TimesParts(Nodes(s.ports[p].items), [s.free[0]], n);
    TimesParts([s.free[0]], s.free[1..], n);
    assert s.free == [s.free[0]] + s.free[1..];
  }

  lemma RecvTailNodes(s: State, p: int, n: int)
    requires GoodId(p) && |s.ports| == NPORTS && s.ports[p].items != []
    ensures SameNodes(s, RecvTail(s, p).s, n)
  {
    hide Times, HeldTimes, HeldCount, Wake, Nodes;
    var x := s.ports[p].items[0].node;
    HeldUpdate(s.ports, p, RecvTail(s, p).s.ports[p], n);
    MessagesHead(s.ports[p].items);
    TimesParts([x], Nodes(s.ports[p].items[1..]), n);
    TimesParts([x], s.free, n);
  }

  lemma SameItemsNodes(s: State, t: State, p: int, port: Port, n: int)
    requires GoodId(p) && |s.ports| == NPORTS && t.ports == s.ports[p := port] && t.free == s.free
    requires port.items == s.ports[p].items
    ensures SameNodes(s, t, n)
  {
    hide Times, HeldTimes, HeldCount, Nodes;
    HeldUpdate(s.ports, p, port, n);
  }

  lemma ClearSendersNodes(s: State, p: int, n: int)
    requires GoodId(p) && |s.ports| == NPORTS && s.ports[p].stage.Draining?
    ensures SameNodes(s, ClearSenders(s, p), n)
  {
    hide HeldTimes, HeldCount, Wake, Messages;
    HeldUpdate(s.ports, p, ClearSenders(s, p).ports[p], n);
    TimesParts(Nodes(s.ports[p].items), s.free, n);
    assert Nodes([]) == [];
  }

  /** Every event moves nodes between the free list and the ports, and neither loses nor duplicates one. */
  lemma StepNodes(s: State, e: Event, n: int)
    requires Orderly(s) && Enabled(s, e) && |s.ports| == NPORTS && Goes(Step(s, e))
    ensures SameNodes(s, Step(s, e).s, n)
  {
    hide Orderly, Places, NodeCount, SendTail, RecvTail, Kill, ClearSenders, ClearReceivers, ClearEnd, Create;
    match e
    case EvSend(pid, p, m) =>
      if GoodId(p) && s.ports[p].state == ALLOC {
        var port := s.ports[p].(ssem := SemWait(s.ports[p].ssem, pid));
        var t := s.(ports := s.ports[p := port]);
        SameItemsNodes(s, t, p, port, n);
        if s.ports[p].ssem.count - 1 < 0 {
          SameItemsNodes(s, Step(s, e).s, p, port, n);
        } else {
          TailEnds(t, p, m);
          SendTailNodes(t, p, m, n);
        }
      }
    case EvRecv(pid, p) =>
      if GoodId(p) && s.ports[p].state == ALLOC {
        var port := s.ports[p].(rsem := SemWait(s.ports[p].rsem, pid));
        var t := s.(ports := s.ports[p := port]);
        SameItemsNodes(s, t, p, port, n);
        if s.ports[p].rsem.count - 1 < 0 {
          SameItemsNodes(s, Step(s, e).s, p, port, n);
        } else {
          RecvTailEnds(t, p);
          RecvTailNodes(t, p, n);
        }
      }
    case EvResume(pid) =>
      var c := s.pend[pid];
      var t := s.(pend := s.pend - {pid});
      AllNodesOnly(s, t, n);
      if SameSeq(s.ports[c.port], c.seqno) {
        if c.kind.Sending? {
          TailEnds(t, c.port, c.kind.msg);
          SendTailNodes(t, c.port, c.kind.msg, n);
        } else {
          RecvTailEnds(t, c.port);
          RecvTailNodes(t, c.port, n);
        }
      }
    case EvClear(p, d) =>
      if GoodId(p) && s.ports[p].state == ALLOC { SameItemsNodes(s, Step(s, e).s, p, Step(s, e).s.ports[p], n); }
    case EvClearSenders(p) => ClearSendersNodes(s, p, n);
    case EvClearReceivers(p) => OtherNodes(s, e, p, n);
    case EvClearEnd(p) => OtherNodes(s, e, p, n);
    case EvCreate(count) => CreateNodes(s, count, n);
    case EvKill(pid) => OtherNodes(s, e, s.pend[pid].port, n);
  }

  lemma AllNodesOnly(s: State, t: State, n: int)
    requires t.ports == s.ports && t.free == s.free
    ensures SameNodes(s, t, n)
  {
  }

  lemma RecvTailEnds(t: State, p: int)
    requires |t.ports| == NPORTS && GoodId(p)
    ensures RecvTail(t, p).NullDereference? <==> t.ports[p].items == []
    ensures t.ports[p].items != [] ==> RecvTail(t, p).Done?
  {
  }

  lemma OtherNodes(s: State, e: Event, p: int, n: int)
    requires |s.ports| == NPORTS && Enabled(s, e)
    requires e == EvClearReceivers(p) || e == EvClearEnd(p) || (e.EvKill? && p == s.pend[e.pid].port)
    ensures SameNodes(s, Step(s, e).s, n)
  {
    SameItemsNodes(s, Step(s, e).s, p, Step(s, e).s.ports[p], n);
  }

  lemma CreateNodes(s: State, count: int, n: int)
    requires Orderly(s)
    ensures SameNodes(s, Create(s, count).s, n)
  {
    hide Scan, Places, NodeCount;
    OrderlySize(s);
    if Create(s, count).reply.NewPort? {
      var p := Create(s, count).reply.id;
      TidyHere(s, p);
      SameItemsNodes(s, Create(s, count).s, p, Create(s, count).s.ports[p], n);
    }
  }

  lemma {:induction false} RunNodes(s: State, es: seq<Event>, n: int)
    requires Orderly(s) && Path(s, es)
    ensures SameNodes(s, Run(s, es), n)
    decreases |es|
  {
    hide Orderly, Places, NodeCount, Step;
    if es != [] {
      StepNodes(s, es[0], n);
      StepOrderly(s, es[0]);
      RunNodes(Step(s, es[0]).s, es[1..], n);
    }
  }

  lemma {:induction false} StartNodes(ports: seq<Port>, n: int)
    requires forall p :: 0 <= p < |ports| ==> ports[p].items == []
    ensures HeldTimes(ports, n) == 0 && HeldCount(ports) == 0
  {
    if ports != [] {
      assert Nodes(ports[0].items) == [];
      StartNodes(ports[1..], n);
    }
  }

  lemma {:induction false} EachOnce(n: nat, x: int)
    ensures Times(seq(n, i => i), x) == if 0 <= x < n then 1 else 0
  {
    if n > 0 {
      EachOnce(n - 1, x);
      assert seq(n, i => i) == seq(n - 1, i => i) + [n - 1];
    }
  }

  /** In every reachable state each node is in exactly one place: once on the free list or once in the list of
      one port. */
  lemma NodesPartitioned(maxmsgs: nat, es: seq<Event>, node: int)
    requires Path(Start(maxmsgs), es)
    ensures Places(Run(Start(maxmsgs), es), node) == if 0 <= node < maxmsgs then 1 else 0
  {
    hide Path, Run, Inv, Orderly;
    StartInv(maxmsgs);
    RunNodes(Start(maxmsgs), es, node);
    StartNodes(Start(maxmsgs).ports, node);
    EachOnce(maxmsgs, node);
  }

  // ---------- Enough nodes ----------

  function Admits(port: Port): int {
    if port.state == FREE then 0 else port.cap
  }

  /** The sizes of the ports in use. */
  function Capacity(ports: seq<Port>): int {
    if ports == [] then 0 else Admits(ports[0]) + Capacity(ports[1..])
  }

  lemma {:induction false} RoomSomewhere(ports: seq<Port>, p: int)
    requires forall q :: 0 <= q < |ports| ==> |ports[q].items| <= Admits(ports[q])
    requires 0 <= p < |ports| ==> |ports[p].items| < Admits(ports[p])
    ensures HeldCount(ports) <= Capacity(ports)
    ensures 0 <= p < |ports| ==> HeldCount(ports) < Capacity(ports)
  {
    if ports != [] {
      assert forall q :: 0 <= q < |ports[1..]| ==> ports[1..][q] == ports[q + 1];
      RoomSomewhere(ports[1..], p - 1);
      if p == 0 { RoomSomewhere(ports[1..], |ports|); }
    }
  }

  lemma WithinCapacity(s: State, q: int)
    requires Inv(s) && GoodId(q)
    ensures |s.ports| == NPORTS && |s.ports[q].items| <= Admits(s.ports[q])
  {
    PortHere(s, q);
  }

  /** A sender that gets as far as the free list has room at its port. */
  lemma PanicHasRoom(s: State, e: Event) returns (p: int)
    requires Inv(s) && Enabled(s, e) && Unwrapped(s, e) && Step(s, e).Panic?
    ensures GoodId(p) && |s.ports| == NPORTS && s.free == [] && |s.ports[p].items| < Admits(s.ports[p])
  {
    hide Inv, QueueOK, SendTail, RecvTail, Released, Wrapped;
    InvSize(s);
    StepKeeps(s, e);
    if e.EvSend? {
      p := e.port;
      PortHere(s, p);
    } else if e.EvResume? {
      p := s.pend[e.pid].port;
      ResumeTest(s, e.pid);
      RecvTailEnds(s.(pend := s.pend - {e.pid}), p);
      PortHere(s, p);
      ReleasedCounts(s, e.pid);
    } else {
      CreateDone(s, 0);
      assert e.EvRecv?;
      p := e.port;
      var t := s.(ports := s.ports[p := s.ports[p].(rsem := SemWait(s.ports[p].rsem, e.pid))]);
      RecvTailEnds(t, p);
    }
  }

  lemma ReleasedCounts(s: State, pid: Pid)
    requires pid in s.pend && s.pend[pid].released && 0 <= s.pend[pid].port < |s.ports|
    requires s.pend[pid].seqno == s.ports[s.pend[pid].port].seqno
    ensures |Released(s, s.pend[pid].port, s.pend[pid].kind.Sending?)| > 0
  {
    assert pid in Released(s, s.pend[pid].port, s.pend[pid].kind.Sending?);
  }

  /** As long as the sizes of the ports in use do not add up to more than the nodes there are, no event
      panics, unless an accession number comes round. */
  lemma NodesSuffice(maxmsgs: nat, es: seq<Event>, e: Event)
    requires Path(Start(maxmsgs), es) && NoWrap(Start(maxmsgs), es)
    requires
      var s := Run(Start(maxmsgs), es);
      |s.ports| == NPORTS && Enabled(s, e) && Unwrapped(s, e) && Capacity(s.ports) <= maxmsgs
    ensures !Step(Run(Start(maxmsgs), es), e).Panic?
  {
    hide Inv, Path, Run, NoWrap, Unwrapped, Enabled, Step;
    var s := Run(Start(maxmsgs), es);
    StartInv(maxmsgs);
    RunKeeps(Start(maxmsgs), es);
    RunNodes(Start(maxmsgs), es, 0);
    StartNodes(Start(maxmsgs).ports, 0);
    if Step(s, e).Panic? {
      var p := PanicHasRoom(s, e);
      forall q | 0 <= q < |s.ports| ensures |s.ports[q].items| <= Admits(s.ports[q]) { WithinCapacity(s, q); }
      RoomSomewhere(s.ports, p);
      assert false;
    }
  }

  // ---------- First come, first served ----------

  /** The port an event is about. */
  function PortOf(s: State, e: Event): int {
    match e
    case EvSend(pid, p, m) => p
    case EvRecv(pid, p) => p
    case EvResume(pid) => if pid in s.pend then s.pend[pid].port else -1
    case EvClear(p, d) => p
    case EvClearSenders(p) => p
    case EvClearReceivers(p) => p
    case EvClearEnd(p) => p
    case EvCreate(count) => -1
    case EvKill(pid) => if pid in s.pend then s.pend[pid].port else -1
  }

  /** In every reachable state the messages of a port are exactly those sent to it and not yet gone from it, in
      the order they were sent. */
  lemma Fifo(maxmsgs: nat, es: seq<Event>, p: int)
    requires Path(Start(maxmsgs), es) && GoodId(p)
    ensures
      var s := Run(Start(maxmsgs), es);
      |s.ports| == NPORTS && s.ports[p].sent == s.ports[p].gone + Messages(s.ports[p].items)
  {
    hide Path, Run, Orderly;
    StartInv(maxmsgs);
    RunOrderly(Start(maxmsgs), es);
    TidyHere(Run(Start(maxmsgs), es), p);
  }

  /** The message a receiver gets is the oldest one not yet received: it goes from the front of what was sent. */
  lemma DeliversOldest(s: State, e: Event)
    requires Orderly(s) && Enabled(s, e)
    requires Step(s, e).Done? && Step(s, e).reply.Got?
    ensures
      var p, m, t := PortOf(s, e), Step(s, e).reply.msg, Step(s, e).s;
      && GoodId(p) && |s.ports| == |t.ports| == NPORTS
      && |s.ports[p].gone| < |s.ports[p].sent| && m == s.ports[p].sent[|s.ports[p].gone|]
      && t.ports[p].gone == s.ports[p].gone + [m] && t.ports[p].sent == s.ports[p].sent
  {
    hide Orderly, SendTail, RecvTail;
    OrderlySize(s);
    assert e.EvRecv? || e.EvResume? by { OnlyReceiversGet(s, e); }
    var p := PortOf(s, e);
    TidyHere(s, p);
    var t := if e.EvRecv? then s.(ports := s.ports[p := s.ports[p].(rsem := SemWait(s.ports[p].rsem, e.pid))])
             else s.(pend := s.pend - {e.pid});
    assert Step(s, e) == RecvTail(t, p) by { OnlyReceiversGet(s, e); }
    RecvTailGets(t, p);
  }

  lemma OnlyReceiversGet(s: State, e: Event)
    requires |s.ports| == NPORTS && Enabled(s, e) && Step(s, e).Done? && Step(s, e).reply.Got?
    ensures e.EvRecv? || e.EvResume?
    ensures e.EvRecv? ==>
              && GoodId(e.port) && s.ports[e.port].state == ALLOC
              && Step(s, e) == RecvTail(s.(ports :=
                 s.ports[e.port := s.ports[e.port].(rsem := SemWait(s.ports[e.port].rsem, e.pid))]), e.port)
    ensures e.EvResume? ==> Step(s, e) == RecvTail(s.(pend := s.pend - {e.pid}), s.pend[e.pid].port)
  {
    hide Scan;
  }

  lemma RecvTailGets(t: State, p: int)
    requires |t.ports| == NPORTS && GoodId(p) && RecvTail(t, p).Done?
    requires t.ports[p].sent == t.ports[p].gone + Messages(t.ports[p].items)
    ensures
      var u, m := RecvTail(t, p).s, RecvTail(t, p).reply.msg;
      && |u.ports| == NPORTS
      && |t.ports[p].gone| < |t.ports[p].sent| && m == t.ports[p].sent[|t.ports[p].gone|]
      && u.ports[p].gone == t.ports[p].gone + [m] && u.ports[p].sent == t.ports[p].sent
  {
  }

  // ---------- Nobody from before a clearing touches the port after it ----------

  /** Process `pid` waits at a port that has been cleared, or created anew, since it entered. */
  ghost predicate Stale(s: State, pid: Pid) {
    && |s.ports| == NPORTS && pid in s.pend && GoodId(s.pend[pid].port)
    && s.pend[pid].seqno < s.ports[s.pend[pid].port].seqno
  }

  /** When a stale process runs again it returns SYSERR, and the ports, their messages, their semaphores, the
      free nodes and all other processes are as they were, exactly unless the port is in use and the number of
      clearings since it entered is a multiple of 2^32. */
  lemma StaleTouchesNothingIff(s: State, pid: Pid)
    requires Stale(s, pid)
    ensures
      var port := s.ports[s.pend[pid].port];
      Resume(s, pid) == Done(s.(pend := s.pend - {pid}), SYSERR)
      <==> port.state != ALLOC || (port.seqno - s.pend[pid].seqno) % SEQS != 0
  {
    StaleFoundIff(s.ports[s.pend[pid].port].seqno, s.pend[pid].seqno);
  }

  /** The event does not end the call process `pid` is in. */
  predicate LeavesAlone(e: Event, pid: Pid) {
    e != EvResume(pid) && e != EvKill(pid)
  }

  ghost predicate AllLeaveAlone(es: seq<Event>, pid: Pid) {
    forall i :: 0 <= i < |es| ==> LeavesAlone(es[i], pid)
  }

  /** `t` has the same call of `pid` pending, and no port has gone back in its sequence numbers. */
  ghost predicate Later(s: State, t: State, pid: Pid) {
    && |s.ports| == |t.ports| && (forall p :: 0 <= p < |s.ports| ==> s.ports[p].seqno <= t.ports[p].seqno)
    && pid in s.pend && pid in t.pend && t.pend[pid].port == s.pend[pid].port && t.pend[pid].seqno == s.pend[pid].seqno
  }

  lemma StepLater(s: State, e: Event, pid: Pid)
    requires |s.ports| == NPORTS && Enabled(s, e) && Goes(Step(s, e)) && pid in s.pend && LeavesAlone(e, pid)
    ensures Later(s, Step(s, e).s, pid)
  {
    hide SendTail, RecvTail, Create, Kill;
    match e
    case EvSend(id, p, m) =>
      if GoodId(p) && s.ports[p].state == ALLOC && s.ports[p].ssem.count - 1 >= 0 {
        var t := s.(ports := s.ports[p := s.ports[p].(ssem := SemWait(s.ports[p].ssem, id))]);
        TailLater(t, p, pid, m);
      }
    case EvRecv(id, p) =>
      if GoodId(p) && s.ports[p].state == ALLOC && s.ports[p].rsem.count - 1 >= 0 {
        var t := s.(ports := s.ports[p := s.ports[p].(rsem := SemWait(s.ports[p].rsem, id))]);
        TailLater(t, p, pid, 0);
      }
    case EvResume(id) =>
      var t := s.(pend := s.pend - {id});
      var c := s.pend[id];
      TailLater(t, c.port, pid, if c.kind.Sending? then c.kind.msg else 0);
    case EvClear(p, d) =>
    case EvClearSenders(p) =>
    case EvClearReceivers(p) =>
    case EvClearEnd(p) =>
    case EvCreate(n) => CreateLater(s, n, pid);
    case EvKill(id) => KillLater(s, id, pid);
  }

  lemma TailLater(t: State, p: int, pid: Pid, msg: Message)
    requires |t.ports| == NPORTS && GoodId(p) && pid in t.pend
    ensures Goes(SendTail(t, p, msg)) ==> Later(t, SendTail(t, p, msg).s, pid)
    ensures Goes(RecvTail(t, p)) ==> Later(t, RecvTail(t, p).s, pid)
  {
  }

  lemma CreateLater(s: State, count: int, pid: Pid)
    requires |s.ports| == NPORTS && GoodId(s.nextid) && pid in s.pend
    ensures Later(s, Create(s, count).s, pid)
  {
    hide Scan;
  }

  lemma KillLater(s: State, id: Pid, pid: Pid)
    requires |s.ports| == NPORTS && id in s.pend && GoodId(s.pend[id].port) && pid in s.pend && pid != id
    ensures Later(s, Kill(s, id), pid)
  {
  }

  lemma {:induction false} RunLater(s: State, es: seq<Event>, pid: Pid)
    requires Path(s, es) && |s.ports| == NPORTS && pid in s.pend && AllLeaveAlone(es, pid)
    ensures Later(s, Run(s, es), pid)
    decreases |es|
  {
    hide Step, Enabled;
    if es != [] {
      StepLater(s, es[0], pid);
      assert forall i :: 0 <= i < |es[1..]| ==> es[1..][i] == es[i + 1];
      RunLater(Step(s, es[0]).s, es[1..], pid);
    }
  }

  /** A process that was waiting at a port when a reset or deletion of it began, and that is released whenever
      and runs again whenever later, returns SYSERR and touches nothing, whatever happened in between, exactly
      unless the port is in use and has by then been cleared a multiple of 2^32 times. */
  lemma ClearedNeverTouches(s: State, p: int, delete: bool, es: seq<Event>, pid: Pid)
    requires Inv(s) && GoodId(p) && |s.ports| == NPORTS && s.ports[p].state == ALLOC
    requires pid in s.pend && s.pend[pid].port == p
    requires Path(ClearStart(s, p, delete).s, es) && AllLeaveAlone(es, pid)
    ensures
      var t := Run(ClearStart(s, p, delete).s, es);
      && |t.ports| == NPORTS && pid in t.pend && t.pend[pid].port == p && t.pend[pid].seqno == s.pend[pid].seqno
      && (Resume(t, pid) == Done(t.(pend := t.pend - {pid}), SYSERR)
          <==> t.ports[p].state != ALLOC || (t.ports[p].seqno - s.pend[pid].seqno) % SEQS != 0)
  {
    hide Path, Run, Resume, QueueOK;
    var s' := ClearStart(s, p, delete).s;
    PendHere(s, pid);
    RunLater(s', es, pid);
    var t := Run(s', es);
    assert Stale(t, pid);
    StaleTouchesNothingIff(t, pid);
  }

  // ---------- Runs put together ----------

  lemma {:induction false} PathAppend(s: State, a: seq<Event>, b: seq<Event>)
    requires Path(s, a) && Path(Run(s, a), b)
    ensures Path(s, a + b) && Run(s, a + b) == Run(Run(s, a), b)
    decreases |a|
  {
    hide Step, Enabled;
    if a == [] {
      assert a + b == b;
    } else {
      assert (a + b)[0] == a[0] && (a + b)[1..] == a[1..] + b;
      PathAppend(Step(s, a[0]).s, a[1..], b);
    }
  }

  /** One event more at the front. */
  lemma PathCons(s: State, e: Event, es: seq<Event>)
    requires |s.ports| == NPORTS && Enabled(s, e) && Goes(Step(s, e)) && Path(Step(s, e).s, es)
    ensures Path(s, [e] + es) && Run(s, [e] + es) == Run(Step(s, e).s, es)
  {
    hide Step, Enabled;
    assert ([e] + es)[1..] == es;
  }

  // ---------- The 16-bit size field ----------

  /** A new port admits what its size field says exactly when the size fits the field. */
  lemma CreateSizeIff(s: State, count: int)
    requires |s.ports| == NPORTS && GoodId(s.nextid) && Create(s, count).reply.NewPort?
    ensures
      var port := Create(s, count).s.ports[Create(s, count).reply.id];
      port.cap == port.maxcnt <==> count < MAXCNT
  {
    hide Scan;
  }

  ghost predicate SizesFit(s: State) {
    forall p :: 0 <= p < |s.ports| ==> SizeFits(s.ports[p])
  }

  ghost predicate SizeFits(port: Port) {
    (port.state == FREE && port.stage.Idle?) || port.cap == port.maxcnt
  }

  predicate SmallCreate(e: Event) {
    e.EvCreate? ==> e.count < MAXCNT
  }

  lemma StepSizes(s: State, e: Event)
    requires |s.ports| == NPORTS && Enabled(s, e) && Goes(Step(s, e)) && SizesFit(s) && SmallCreate(e)
    ensures SizesFit(Step(s, e).s)
  {
    hide Create;
    if e.EvCreate? { CreateSizes(s, e.count); }
    if GoodId(PortOf(s, e)) { assert SizeFits(s.ports[PortOf(s, e)]); }
  }

  lemma CreateSizes(s: State, count: int)
    requires |s.ports| == NPORTS && GoodId(s.nextid) && SizesFit(s) && count < MAXCNT
    ensures SizesFit(Create(s, count).s)
  {
    hide Scan;
  }

  lemma {:induction false} RunSizes(s: State, es: seq<Event>)
    requires Path(s, es) && SizesFit(s) && (forall i :: 0 <= i < |es| ==> SmallCreate(es[i]))
    ensures SizesFit(Run(s, es))
    decreases |es|
  {
    hide Step, Enabled, SizesFit;
    if es != [] {
      StepSizes(s, es[0]);
      assert forall i :: 0 <= i < |es[1..]| ==> es[1..][i] == es[i + 1];
      RunSizes(Step(s, es[0]).s, es[1..]);
    }
  }

  /** If every port is created with at most 65535 places, no port ever holds more than `ptmaxcnt` messages, unless
      an accession number comes round. */
  lemma NeverAboveMax(maxmsgs: nat, es: seq<Event>, p: int)
    requires Path(Start(maxmsgs), es) && NoWrap(Start(maxmsgs), es) && GoodId(p)
              && (forall i :: 0 <= i < |es| ==> SmallCreate(es[i]))
    ensures
      var s := Run(Start(maxmsgs), es);
      |s.ports| == NPORTS && (s.ports[p].state == ALLOC ==> |s.ports[p].items| <= s.ports[p].maxcnt)
  {
    hide Path, Run, NoWrap;
    PortBounds(maxmsgs, es, p);
    RunSizes(Start(maxmsgs), es);
    assert SizeFits(Run(Start(maxmsgs), es).ports[p]);
  }

  /** A run in which every port is created with `count` places, no accession number comes round, and some port
      ends up with more messages than `ptmaxcnt`. */
  ghost predicate Exceeds(count: int, maxmsgs: nat, es: seq<Event>, p: int) {
    && GoodId(p) && (forall i :: 0 <= i < |es| ==> es[i].EvCreate? ==> es[i].count == count)
    && Path(Start(maxmsgs), es) && NoWrap(Start(maxmsgs), es)
    && |Run(Start(maxmsgs), es).ports| == NPORTS && Run(Start(maxmsgs), es).ports[p].state == ALLOC
    && |Run(Start(maxmsgs), es).ports[p].items| > Run(Start(maxmsgs), es).ports[p].maxcnt
  }

  /** With ports of `count` places there are such runs exactly if `count` does not fit the field. */
  lemma ExceedsIff(count: int)
    ensures (exists maxmsgs: nat, es, p :: Exceeds(count, maxmsgs, es, p)) <==> count >= MAXCNT
  {
    hide Path, Run, NoWrap;
    if maxmsgs: nat, es, p :| Exceeds(count, maxmsgs, es, p) {
      if count < MAXCNT { NeverAboveMax(maxmsgs, es, p); }
    }
    if count >= MAXCNT { FillsPort(count); }
  }

  function Sends(n: nat): seq<Event> {
    seq(n, _ => EvSend(1, 0, 7))
  }

  /** A port with room for them takes any number of messages without anybody blocking. */
  lemma {:induction false} SendsRun(s: State, n: nat)
    requires |s.ports| == NPORTS && s.ports[0].state == ALLOC && 1 !in s.pend && |s.free| >= n
    requires s.ports[0].ssem.count >= n && s.ports[0].rsem.count >= 0
    ensures Path(s, Sends(n)) && NoWrap(s, Sends(n))
    ensures
      var t := Run(s, Sends(n));
      && |t.ports| == NPORTS && t.ports[0].state == ALLOC && t.ports[0].maxcnt == s.ports[0].maxcnt
      && |t.ports[0].items| == |s.ports[0].items| + n
    decreases n
  {
    if n > 0 {
      var e := EvSend(1, 0, 7);
      SendOne(s);
      hide Step, Enabled;
      SendsRun(Step(s, e).s, n - 1);
      assert Sends(n) == [e] + Sends(n - 1);
      PathCons(s, e, Sends(n - 1));
      assert Sends(n)[0] == e && Sends(n)[1..] == Sends(n - 1);
    }
  }

  lemma SendOne(s: State)
    requires |s.ports| == NPORTS && s.ports[0].state == ALLOC && 1 !in s.pend && s.free != []
    requires s.ports[0].ssem.count >= 1 && s.ports[0].rsem.count >= 0
    ensures
      var e := EvSend(1, 0, 7);
      && Enabled(s, e) && Unwrapped(s, e) && Goes(Step(s, e))
      && var t := Step(s, e).s;
      && |t.ports| == NPORTS && t.ports[0].state == ALLOC && 1 !in t.pend && |t.free| == |s.free| - 1
      && t.ports[0].maxcnt == s.ports[0].maxcnt && |t.ports[0].items| == |s.ports[0].items| + 1
      && t.ports[0].ssem.count == s.ports[0].ssem.count - 1 && t.ports[0].rsem.count == s.ports[0].rsem.count + 1
  {
  }

  lemma FillsPort(count: int)
    requires count >= MAXCNT
    ensures exists maxmsgs: nat, es, p :: Exceeds(count, maxmsgs, es, p)
  {
    var e := EvCreate(count);
    var s := Start(count);
    var n := count % MAXCNT + 1;
    assert Scan(s.ports, 0, NPORTS) == 0;
    var t := Step(s, e).s;
    assert t.ports[0].state == ALLOC && t.ports[0].maxcnt == n - 1 && t.ports[0].items == [] && |t.free| == count;
    SendsRun(t, n);
    hide Step, Enabled, Sends, Start;
    var es := [e] + Sends(n);
    PathCons(s, e, Sends(n));
    assert es[0] == e && es[1..] == Sends(n);
    OnlySends(n);
    assert Exceeds(count, count, es, 0);
  }

  lemma OnlySends(n: nat)
    ensures |Sends(n)| == n
    ensures forall i :: 0 <= i < n ==> Sends(n)[i] == EvSend(1, 0, 7)
  {
  }
}
