/** The port table and its message nodes in memory (system/ptinit.c, ptcreate.c, ptsend.c, ptrecv.c, ptclear.c).

    `abs` is the state of the protocol the memory stands for; every method says which step of the protocol it
    carries out.  A node is known by its index, and semaphores appear by what they do to a port. */
module PortTables {
  import opened PortProtocol
  import opened PortSafety
  import opened PortRuns
  import opened PortDelivery
  import opened Sequences

  const NULL := -1

  /** struct ptentry */
  datatype Entry = Entry(ptstate: PortState, ptssem: Sem, ptrsem: Sem, ptmaxcnt: int, ptseq: int, pthead: int,
      pttail: int)

  /** The local variables of a process inside ptsend or ptrecv. */
  datatype Call = Call(port: int, seqno: int, kind: Kind, released: bool)

  // ---------- Lists of nodes ----------

  function First(nodes: seq<int>): int {
    if nodes == [] then NULL else nodes[0]
  }

  function Last(nodes: seq<int>): int {
    if nodes == [] then NULL else nodes[|nodes| - 1]
  }

  ghost predicate Link(ptnext: map<int, int>, nodes: seq<int>, i: int)
    requires 0 <= i < |nodes|
  {
    nodes[i] >= 0 && nodes[i] in ptnext && ptnext[nodes[i]] == First(nodes[i + 1..])
  }

  /** The `ptnext` fields chain the nodes in this order and end in NULL. */
  ghost predicate Chain(ptnext: map<int, int>, nodes: seq<int>) {
    forall i :: 0 <= i < |nodes| ==> Link(ptnext, nodes, i)
  }

  lemma ChainTail(ptnext: map<int, int>, nodes: seq<int>)
    requires Chain(ptnext, nodes) && nodes != []
    ensures nodes[0] >= 0 && nodes[0] in ptnext && ptnext[nodes[0]] == First(nodes[1..])
    ensures Chain(ptnext, nodes[1..])
  {
    assert Link(ptnext, nodes, 0);
    var tail := nodes[1..];
    forall i | 0 <= i < |tail| ensures Link(ptnext, tail, i) {
      assert Link(ptnext, nodes, i + 1);
      assert nodes[i + 1 + 1..] == tail[i + 1..];
    }
  }

  lemma ChainFrame(ptnext: map<int, int>, ptnext': map<int, int>, nodes: seq<int>)
    requires Chain(ptnext, nodes)
    requires forall x :: x in nodes && x in ptnext ==> x in ptnext' && ptnext'[x] == ptnext[x]
    ensures Chain(ptnext', nodes)
  {
    forall i | 0 <= i < |nodes| ensures Link(ptnext', nodes, i) {
      assert Link(ptnext, nodes, i);
      assert nodes[i] in nodes;
    }
  }

  /** Pointing the last node of `a` at the first of `b` joins the two chains. */
  lemma ChainJoin(ptnext: map<int, int>, a: seq<int>, b: seq<int>)
    requires Chain(ptnext, a) && Chain(ptnext, b) && a != [] && NoDup(a) && Last(a) !in b
    ensures Last(a) in ptnext
    ensures Chain(ptnext[Last(a) := First(b)], a + b)
  {
    var m := ptnext[Last(a) := First(b)];
    assert Link(ptnext, a, |a| - 1);
    forall i | 0 <= i < |a + b| ensures Link(m, a + b, i) {
      if i < |a| {
        assert Link(ptnext, a, i);
        assert (a + b)[i + 1..] == a[i + 1..] + b;
        if i < |a| - 1 { assert Differ(a, i, |a| - 1); }
      } else {
        assert Link(ptnext, b, i - |a|);
        assert (a + b)[i] == b[i - |a|] && b[i - |a|] in b;
        assert (a + b)[i + 1..] == b[i - |a| + 1..];
      }
    }
  }

  lemma ChainOne(ptnext: map<int, int>, x: int)
    requires x >= 0
    ensures Chain(ptnext[x := NULL], [x])
  {
  }

  // ---------- Each node in one place ----------

  ghost predicate OnePlace(s: State) {
    forall n :: AtMostOnce(s, n)
  }

  ghost predicate AtMostOnce(s: State, n: int) {
    Places(s, n) <= 1
  }

  lemma TimesIn(nodes: seq<int>, n: int)
    ensures n in nodes <==> Times(nodes, n) >= 1
  {
    assert n in nodes <==> n in multiset(nodes);
  }

  lemma TimesTwice(nodes: seq<int>, i: int, j: int)
    requires 0 <= i < j < |nodes| && nodes[i] == nodes[j]
    ensures Times(nodes, nodes[i]) >= 2
  {
    assert nodes == nodes[..j] + nodes[j..];
    TimesParts(nodes[..j], nodes[j..], nodes[i]);
    TimesIn(nodes[..j], nodes[i]);
    TimesIn(nodes[j..], nodes[i]);
    assert nodes[..j][i] == nodes[i] && nodes[j..][0] == nodes[j];
  }

  lemma {:induction false} HeldAtLeast(ports: seq<Port>, p: int, q: int, n: int)
    requires 0 <= p < |ports|
    ensures HeldTimes(ports, n) >= Times(Nodes(ports[p].items), n)
    ensures 0 <= q < |ports| && q != p ==>
              HeldTimes(ports, n) >= Times(Nodes(ports[p].items), n) + Times(Nodes(ports[q].items), n)
  {
    hide Times, Nodes;
    if p > 0 {
      HeldAtLeast(ports[1..], p - 1, q - 1, n);
      if q == 0 { assert ports[1..][p - 1] == ports[p]; }
    } else if 0 < q < |ports| {
      HeldAtLeast(ports[1..], q - 1, -1, n);
    }
  }

  /** A node of port `p` is in no other list, and once in its own. */
  lemma NodeOfPort(s: State, p: int, n: int)
    requires OnePlace(s) && 0 <= p < |s.ports| && n in Nodes(s.ports[p].items)
    ensures n !in s.free
    ensures forall q :: 0 <= q < |s.ports| && q != p ==> n !in Nodes(s.ports[q].items)
  {
    hide HeldTimes, Times, Nodes;
    assert AtMostOnce(s, n);
    TimesIn(Nodes(s.ports[p].items), n);
    TimesIn(s.free, n);
    HeldAtLeast(s.ports, p, -1, n);
    forall q | 0 <= q < |s.ports| && q != p ensures n !in Nodes(s.ports[q].items) {
      HeldAtLeast(s.ports, p, q, n);
      TimesIn(Nodes(s.ports[q].items), n);
    }
  }

  /** A free node is in no port. */
  lemma NodeOfFree(s: State, n: int)
    requires OnePlace(s) && n in s.free
    ensures forall q :: 0 <= q < |s.ports| ==> n !in Nodes(s.ports[q].items)
  {
    forall q | 0 <= q < |s.ports| ensures n !in Nodes(s.ports[q].items) {
      if n in Nodes(s.ports[q].items) { NodeOfPort(s, q, n); }
    }
  }

  lemma ListsNoDup(s: State)
    requires OnePlace(s)
    ensures NoDup(s.free)
    ensures forall p :: 0 <= p < |s.ports| ==> NoDup(Nodes(s.ports[p].items))
  {
    hide HeldTimes, Times, Nodes;
    forall i, j | 0 <= i < j < |s.free| ensures Differ(s.free, i, j) {
      if s.free[i] == s.free[j] { assert AtMostOnce(s, s.free[i]); TimesTwice(s.free, i, j); }
    }
    forall p | 0 <= p < |s.ports| ensures NoDup(Nodes(s.ports[p].items)) {
      var nodes := Nodes(s.ports[p].items);
      forall i, j | 0 <= i < j < |nodes| ensures Differ(nodes, i, j) {
        if nodes[i] == nodes[j] {
          TimesTwice(nodes, i, j);
          assert AtMostOnce(s, nodes[i]);
          HeldAtLeast(s.ports, p, -1, nodes[i]);
        }
      }
    }
  }

  // ---------- The memory and what it stands for ----------

  /** The scalar fields of an entry. */
  ghost predicate SameFields(e: Entry, port: Port) {
    && e.ptstate == port.state && e.ptssem == port.ssem && e.ptrsem == port.rsem
    && e.ptmaxcnt == port.maxcnt && e.ptseq == port.seqno % SEQS
  }

  /** The entry's list pointers mean something: not for a free port, nor once a deletion has drained it. */
  predicate HasList(port: Port) {
    port.state == ALLOC || port.stage.Draining? || (!port.stage.Idle? && !port.stage.delete)
  }

  ghost predicate ListOK(head: int, tail: int, items: seq<Item>, ptnext: map<int, int>, ptmsg: map<int, int>) {
    var nodes := Nodes(items);
    && head == First(nodes) && tail == Last(nodes)
    && Chain(ptnext, nodes)
    && forall i :: 0 <= i < |items| ==> HoldsMessage(ptmsg, items[i])
  }

  ghost predicate HoldsMessage(ptmsg: map<int, int>, item: Item) {
    item.node in ptmsg && ptmsg[item.node] == item.msg
  }

  ghost predicate CallOK(calls: map<Pid, Call>, pend: map<Pid, Pending>, pid: Pid) {
    && (pid in calls <==> pid in pend)
    && (pid in pend ==> calls[pid] == Call(pend[pid].port, pend[pid].seqno % SEQS, pend[pid].kind, pend[pid].released))
  }

  ghost predicate Represents(porttab: seq<Entry>, ptfree: int, ptnext: map<int, int>, ptmsg: map<int, int>,
                             calls: map<Pid, Call>, s: State)
  {
    && |porttab| == |s.ports| == NPORTS
    && (forall p :: 0 <= p < NPORTS ==> SameFields(porttab[p], s.ports[p]))
    && (forall p :: 0 <= p < NPORTS && HasList(s.ports[p]) ==>
       ListOK(porttab[p].pthead, porttab[p].pttail, s.ports[p].items, ptnext, ptmsg))
    && ptfree == First(s.free) && Chain(ptnext, s.free)
    && (forall pid :: CallOK(calls, s.pend, pid))
    && OnePlace(s)
  }

  lemma RepPort(porttab: seq<Entry>, ptfree: int, ptnext: map<int, int>, ptmsg: map<int, int>, calls: map<Pid, Call>,
                s: State, p: int)
    requires Represents(porttab, ptfree, ptnext, ptmsg, calls, s) && GoodId(p)
    ensures |porttab| == |s.ports| == NPORTS && SameFields(porttab[p], s.ports[p])
    ensures HasList(s.ports[p]) ==> ListOK(porttab[p].pthead, porttab[p].pttail, s.ports[p].items, ptnext, ptmsg)
    ensures ptfree == First(s.free) && Chain(ptnext, s.free) && OnePlace(s)
  {
  }

  lemma RepCalls(porttab: seq<Entry>, ptfree: int, ptnext: map<int, int>, ptmsg: map<int, int>, calls: map<Pid, Call>,
                 s: State, pid: Pid)
    requires Represents(porttab, ptfree, ptnext, ptmsg, calls, s)
    ensures CallOK(calls, s.pend, pid)
  {
  }

  /** The lists of the other ports do not see changes of the nodes in `touched`. */
  lemma OthersKept(porttab: seq<Entry>, ptfree: int, ptnext: map<int, int>, ptmsg: map<int, int>, calls: map<Pid, Call>,
                   s: State, ptnext': map<int, int>, ptmsg': map<int, int>, p: int, touched: set<int>)
    requires Represents(porttab, ptfree, ptnext, ptmsg, calls, s) && GoodId(p)
    requires forall x :: x in ptnext && x !in touched ==> x in ptnext' && ptnext'[x] == ptnext[x]
    requires forall x :: x in ptmsg && x !in touched ==> x in ptmsg' && ptmsg'[x] == ptmsg[x]
    requires forall x :: x in touched ==> x in s.free || x in Nodes(s.ports[p].items)
    ensures forall q :: 0 <= q < NPORTS && q != p && HasList(s.ports[q]) ==>
              ListOK(porttab[q].pthead, porttab[q].pttail, s.ports[q].items, ptnext', ptmsg')
  {
    forall q | 0 <= q < NPORTS && q != p && HasList(s.ports[q])
      ensures ListOK(porttab[q].pthead, porttab[q].pttail, s.ports[q].items, ptnext', ptmsg')
    {
      RepPort(porttab, ptfree, ptnext, ptmsg, calls, s, q);
      var nodes := Nodes(s.ports[q].items);
      forall x | x in nodes ensures x !in touched { NodeOfPort(s, q, x); }
      ChainFrame(ptnext, ptnext', nodes);
      forall i | 0 <= i < |s.ports[q].items| ensures HoldsMessage(ptmsg', s.ports[q].items[i]) {
        assert HoldsMessage(ptmsg, s.ports[q].items[i]);
        assert nodes[i] in nodes;
      }
    }
  }

  /** Appending node `x`, the first free one, to a list. */
  lemma AppendList(head: int, tail: int, items: seq<Item>, ptnext: map<int, int>, ptmsg: map<int, int>, x: int,
                   msg: Message)
    requires ListOK(head, tail, items, ptnext, ptmsg) && x >= 0 && x !in Nodes(items) && NoDup(Nodes(items))
    ensures
      var n := ptnext[x := NULL];
      ListOK(if tail == NULL then x else head, x, items + [Item(x, msg)],
             if tail == NULL then n else n[tail := x], ptmsg[x := msg])
    ensures tail != NULL ==> tail in Nodes(items)
  {
    hide NoDup;
    var nodes := Nodes(items);
    var n := ptnext[x := NULL];
    MessagesAppend(items, Item(x, msg));
    ChainOne(ptnext, x);
    ChainFrame(ptnext, n, nodes);
    if nodes != [] {
      assert Link(ptnext, nodes, |nodes| - 1);
      assert nodes[|nodes| - 1] in nodes;
      ChainJoin(n, nodes, [x]);
    } else {
      assert nodes + [x] == [x];
    }
    forall i | 0 <= i < |items| ensures HoldsMessage(ptmsg[x := msg], items[i]) {
      assert HoldsMessage(ptmsg, items[i]) && nodes[i] in nodes;
    }
  }

  /** Put together what a call that works on port `p` leaves behind. */
  lemma Assemble(porttab: seq<Entry>, e: Entry, ptfree: int, ptnext: map<int, int>, ptmsg: map<int, int>,
                 calls: map<Pid, Call>, s: State, t: State, p: int)
    requires |porttab| == |s.ports| == NPORTS && GoodId(p) && |t.ports| == NPORTS
    requires forall q :: 0 <= q < NPORTS && q != p ==> t.ports[q] == s.ports[q] && SameFields(porttab[q], s.ports[q])
    requires forall q :: 0 <= q < NPORTS && q != p && HasList(s.ports[q]) ==>
              ListOK(porttab[q].pthead, porttab[q].pttail, s.ports[q].items, ptnext, ptmsg)
    requires SameFields(e, t.ports[p])
              && (HasList(t.ports[p]) ==> ListOK(e.pthead, e.pttail, t.ports[p].items, ptnext, ptmsg))
    requires ptfree == First(t.free) && Chain(ptnext, t.free)
    requires forall pid :: CallOK(calls, t.pend, pid)
    requires OnePlace(t)
    ensures Represents(porttab[p := e], ptfree, ptnext, ptmsg, calls, t)
  {
    hide ListOK, SameFields, Chain, OnePlace, CallOK;
  }

  function WakeCalls(calls: map<Pid, Call>, pids: seq<Pid>): map<Pid, Call> {
    map q | q in calls :: if q in pids then calls[q].(released := true) else calls[q]
  }

  lemma WakeCallsOK(calls: map<Pid, Call>, pend: map<Pid, Pending>, pids: seq<Pid>)
    requires forall pid :: CallOK(calls, pend, pid)
    ensures forall pid :: CallOK(WakeCalls(calls, pids), Wake(pend, pids), pid)
  {
    forall pid ensures CallOK(WakeCalls(calls, pids), Wake(pend, pids), pid) { assert CallOK(calls, pend, pid); }
  }

  lemma OnePlaceKept(s: State, t: State)
    requires OnePlace(s) && forall n :: SameNodes(s, t, n)
    ensures OnePlace(t)
  {
    forall n ensures AtMostOnce(t, n) { assert AtMostOnce(s, n) && SameNodes(s, t, n); }
  }

  lemma OtherFields(porttab: seq<Entry>, ptfree: int, ptnext: map<int, int>, ptmsg: map<int, int>, calls: map<Pid,
                    Call>, s: State)
    requires Represents(porttab, ptfree, ptnext, ptmsg, calls, s)
    ensures |porttab| == |s.ports| == NPORTS
    ensures forall q :: 0 <= q < NPORTS ==> SameFields(porttab[q], s.ports[q])
    ensures forall pid :: CallOK(calls, s.pend, pid)
  {
  }

  /** The memory after the tail of ptsend. */
  lemma SendTailMemory(porttab: seq<Entry>, ptfree: int, ptnext: map<int, int>, ptmsg: map<int, int>, calls: map<Pid,
                       Call>,
                       s: State, p: int, msg: Message)
    requires Represents(porttab, ptfree, ptnext, ptmsg, calls, s) && GoodId(p) && s.ports[p].state == ALLOC
    requires ptfree != NULL
    ensures s.free != [] && ptfree in ptnext
    ensures
      var n := ptnext[ptfree := NULL];
      var tail := porttab[p].pttail;
      var e := if tail == NULL then porttab[p].(pthead := ptfree, pttail := ptfree) else porttab[p].(pttail := ptfree);
      && Represents(porttab[p := e.(ptrsem := SemSignal(e.ptrsem))], ptnext[ptfree],
                    if tail == NULL then n else n[tail := ptfree], ptmsg[ptfree := msg],
                    WakeCalls(calls, Woken(e.ptrsem)), PortProtocol.SendTail(s, p, msg).s)
  {
    hide Represents, Chain, ListOK, NoDup, OnePlace, Wake, CallOK, SameNodes, Link;
    RepPort(porttab, ptfree, ptnext, ptmsg, calls, s, p);
    OtherFields(porttab, ptfree, ptnext, ptmsg, calls, s);
    ChainTail(ptnext, s.free);
    NodeOfFree(s, ptfree);
    ListsNoDup(s);
    AppendList(porttab[p].pthead, porttab[p].pttail, s.ports[p].items, ptnext, ptmsg, ptfree, msg);
    var t := PortProtocol.SendTail(s, p, msg).s;
    var tail := porttab[p].pttail;
    var n := ptnext[ptfree := NULL];
    var n' := if tail == NULL then n else n[tail := ptfree];
    OthersKept(porttab, ptfree, ptnext, ptmsg, calls, s, n', ptmsg[ptfree := msg], p, {ptfree, tail} - {NULL});
    FreeRestKept(ptnext, n', s, p, tail);
    WakeCallsOK(calls, s.pend, Woken(porttab[p].ptrsem));
    forall k ensures SameNodes(s, t, k) { SendTailNodes(s, p, msg, k); }
    OnePlaceKept(s, t);
    var e := if tail == NULL then porttab[p].(pthead := ptfree, pttail := ptfree) else porttab[p].(pttail := ptfree);
    Assemble(porttab, e.(ptrsem := SemSignal(e.ptrsem)), ptnext[ptfree], n', ptmsg[ptfree := msg],
             WakeCalls(calls, Woken(e.ptrsem)), s, t, p);
  }

  lemma FreeRestKept(ptnext: map<int, int>, n': map<int, int>, s: State, p: int, tail: int)
    requires Chain(ptnext, s.free) && s.free != [] && OnePlace(s) && 0 <= p < |s.ports|
    requires tail == NULL || tail in Nodes(s.ports[p].items)
    requires n' == (if tail == NULL then ptnext[s.free[0] := NULL] else ptnext[s.free[0] := NULL][tail := s.free[0]])
    ensures Chain(n', s.free[1..])
  {
    ChainTail(ptnext, s.free);
    ListsNoDup(s);
    if tail != NULL { NodeOfPort(s, p, tail); }
    NoDupTail(s.free);
    forall x | x in s.free[1..] ensures x != s.free[0] && x != tail {
      var i :| 0 <= i < |s.free[1..]| && s.free[1..][i] == x;
      assert s.free[i + 1] == x;
      assert Link(ptnext, s.free, i + 1);
    }
    ChainFrame(ptnext, n', s.free[1..]);
  }

  /** Taking the first node off a list and putting it in front of the free list. */
  lemma UnlinkHead(head: int, tail: int, items: seq<Item>, ptnext: map<int, int>, ptmsg: map<int, int>, ptfree: int)
    requires ListOK(head, tail, items, ptnext, ptmsg) && items != [] && NoDup(Nodes(items))
    ensures head == items[0].node && head in ptnext && head in ptmsg && ptmsg[head] == items[0].msg
    ensures
      ListOK(if head == tail then NULL else ptnext[head], if head == tail then NULL else tail, items[1..],
             ptnext[head := ptfree], ptmsg)
    ensures head >= 0 && head in Nodes(items)
  {
    var nodes := Nodes(items);
    MessagesHead(items);
    ChainTail(ptnext, nodes);
    assert nodes[1..] == Nodes(items[1..]);
    NoDupTail(nodes);
    assert head == tail <==> |nodes| == 1;
    assert HoldsMessage(ptmsg, items[0]);
    forall x | x in nodes[1..] ensures x != head {
      var i :| 0 <= i < |nodes[1..]| && nodes[1..][i] == x;
      assert nodes[i + 1] == x;
    }
    ChainFrame(ptnext, ptnext[head := ptfree], nodes[1..]);
  }

  lemma ChainPush(ptnext: map<int, int>, free: seq<int>, x: int)
    requires Chain(ptnext, free) && x >= 0 && x !in free
    ensures Chain(ptnext[x := First(free)], [x] + free)
  {
    ChainOne(ptnext, x);
    ChainFrame(ptnext, ptnext[x := NULL], free);
    ChainJoin(ptnext[x := NULL], [x], free);
    assert ptnext[x := NULL][x := First(free)] == ptnext[x := First(free)];
  }

  /** The memory after the tail of ptrecv. */
  lemma RecvTailMemory(porttab: seq<Entry>, ptfree: int, ptnext: map<int, int>, ptmsg: map<int, int>, calls: map<Pid,
                       Call>,
                       s: State, p: int)
    requires Represents(porttab, ptfree, ptnext, ptmsg, calls, s) && GoodId(p) && s.ports[p].state == ALLOC
    requires s.ports[p].items != []
    ensures
      var e := porttab[p];
      var x := e.pthead;
      && x in ptnext && x in ptmsg && ptmsg[x] == s.ports[p].items[0].msg
      && var e' := if x == e.pttail then e.(pthead := NULL, pttail := NULL) else e.(pthead := ptnext[x]);
         Represents(porttab[p := e'.(ptssem := SemSignal(e.ptssem))], x, ptnext[x := ptfree], ptmsg,
                    WakeCalls(calls, Woken(e.ptssem)), PortProtocol.RecvTail(s, p).s)
  {
    hide Represents, Chain, ListOK, NoDup, OnePlace, Wake, CallOK, SameNodes, Link;
    RepPort(porttab, ptfree, ptnext, ptmsg, calls, s, p);
    OtherFields(porttab, ptfree, ptnext, ptmsg, calls, s);
    ListsNoDup(s);
    var e := porttab[p];
    var x := e.pthead;
    UnlinkHead(e.pthead, e.pttail, s.ports[p].items, ptnext, ptmsg, ptfree);
    NodeOfPort(s, p, x);
    ChainPush(ptnext, s.free, x);
    OthersKept(porttab, ptfree, ptnext, ptmsg, calls, s, ptnext[x := ptfree], ptmsg, p, {x});
    WakeCallsOK(calls, s.pend, Woken(e.ptssem));
    var t := PortProtocol.RecvTail(s, p).s;
    forall k ensures SameNodes(s, t, k) { RecvTailNodes(s, p, k); }
    OnePlaceKept(s, t);
    var e' := if x == e.pttail then e.(pthead := NULL, pttail := NULL) else e.(pthead := ptnext[x]);
    Assemble(porttab, e'.(ptssem := SemSignal(e.ptssem)), x, ptnext[x := ptfree], ptmsg,
             WakeCalls(calls, Woken(e.ptssem)), s, t, p);
  }

  /** A call that only changes scalar fields of port `p`, and the calls pending there. */
  lemma FieldsMemory(porttab: seq<Entry>, ptfree: int, ptnext: map<int, int>, ptmsg: map<int, int>, calls: map<Pid,
                     Call>,
                     s: State, t: State, p: int, e: Entry, calls': map<Pid, Call>)
    requires Represents(porttab, ptfree, ptnext, ptmsg, calls, s) && GoodId(p)
    requires |t.ports| == NPORTS && t.free == s.free && t.ports == s.ports[p := t.ports[p]]
    requires SameFields(e, t.ports[p]) && t.ports[p].items == s.ports[p].items
    requires HasList(t.ports[p]) ==>
              HasList(s.ports[p]) && e.pthead == porttab[p].pthead && e.pttail == porttab[p].pttail
    requires forall pid :: CallOK(calls', t.pend, pid)
    ensures Represents(porttab[p := e], ptfree, ptnext, ptmsg, calls', t)
  {
    hide Chain, ListOK, OnePlace, CallOK, SameNodes;
    forall n ensures SameNodes(s, t, n) { SameItemsNodes(s, t, p, t.ports[p], n); }
    OnePlaceKept(s, t);
  }

  lemma CallsPlus(calls: map<Pid, Call>, pend: map<Pid, Pending>, pid: Pid, c: Pending,
                  calls': map<Pid, Call>, pend': map<Pid, Pending>)
    requires forall q :: CallOK(calls, pend, q)
    requires calls' == calls[pid := Call(c.port, c.seqno % SEQS, c.kind, c.released)] && pend' == pend[pid := c]
    ensures forall q :: CallOK(calls', pend', q)
  {
    forall q ensures CallOK(calls', pend', q) { assert CallOK(calls, pend, q); }
  }

  lemma CallsMinus(calls: map<Pid, Call>, pend: map<Pid, Pending>, pid: Pid)
    requires forall q :: CallOK(calls, pend, q)
    ensures forall q :: CallOK(calls - {pid}, pend - {pid}, q)
  {
    forall q ensures CallOK(calls - {pid}, pend - {pid}, q) { assert CallOK(calls, pend, q); }
  }

  /** How a call ends at its caller. */
  datatype Outcome = Returns(reply: Reply) | Blocks | Panics | Crashes

  /** The outcome and the new state are those of the protocol step. */
  ghost predicate Matches(o: Outcome, t: State, r: Result) {
    match r
    case Done(u, reply) => o == Returns(reply) && t == u
    case Blocked(u) => o == Blocks && t == u
    case Panic => o == Panics
    case NullDereference => o == Crashes
  }

  /** Splicing the whole list of a port in front of the free list. */
  lemma ClearSendersMemory(porttab: seq<Entry>, ptfree: int, ptnext: map<int, int>, ptmsg: map<int, int>,
                           calls: map<Pid, Call>,
                           s: State, p: int, e': Entry)
    requires Represents(porttab, ptfree, ptnext, ptmsg, calls, s) && GoodId(p) && s.ports[p].stage.Draining?
    requires SameFields(e', PortProtocol.ClearSenders(s, p).ports[p])
    requires s.ports[p].state != ALLOC
    requires !s.ports[p].stage.delete ==> e'.pthead == NULL && e'.pttail == NULL
    ensures
      var e := porttab[p];
      && (e.pthead == NULL <==> s.ports[p].items == [])
      && (e.pthead != NULL ==> e.pttail in ptnext)
      && Represents(porttab[p := e'], if e.pthead == NULL then ptfree else e.pthead,
                    if e.pthead == NULL then ptnext else ptnext[e.pttail := ptfree], ptmsg,
                    WakeCalls(calls, e.ptssem.queue), PortProtocol.ClearSenders(s, p))
  {
    hide Represents, Chain, NoDup, OnePlace, Wake, CallOK, SameNodes, Link;
    RepPort(porttab, ptfree, ptnext, ptmsg, calls, s, p);
    OtherFields(porttab, ptfree, ptnext, ptmsg, calls, s);
    ListsNoDup(s);
    var e, nodes := porttab[p], Nodes(s.ports[p].items);
    var n := if e.pthead == NULL then ptnext else ptnext[e.pttail := ptfree];
    if nodes != [] {
      ChainTail(ptnext, nodes);
      assert nodes[|nodes| - 1] in nodes;
      NodeOfPort(s, p, e.pttail);
      ChainJoin(ptnext, nodes, s.free);
    } else {
      assert nodes + s.free == s.free;
    }
    OthersKept(porttab, ptfree, ptnext, ptmsg, calls, s, n, ptmsg, p, if nodes == [] then {} else {e.pttail});
    WakeCallsOK(calls, s.pend, e.ptssem.queue);
    var t := PortProtocol.ClearSenders(s, p);
    forall k ensures SameNodes(s, t, k) { ClearSendersNodes(s, p, k); }
    OnePlaceKept(s, t);
    EmptyChain(n);
    assert Nodes([]) == [];
    Assemble(porttab, e', if e.pthead == NULL then ptfree
        else e.pthead, n, ptmsg, WakeCalls(calls, e.ptssem.queue), s, t, p);
  }

  class PortTable {
    var porttab: seq<Entry>
    var ptfree: int
    var ptnext: map<int, int>
    var ptmsg: map<int, int>
    var ptnextid: int
    var calls: map<Pid, Call>
    ghost var abs: State

    ghost predicate Memory()
      reads this
    {
      Represents(porttab, ptfree, ptnext, ptmsg, calls, abs) && ptnextid == abs.nextid && GoodId(ptnextid)
    }

    /** The memory stands for a state of the protocol that is orderly, as every reachable one is. */
    ghost predicate Valid()
      reads this
    {
      Memory() && Orderly(abs)
    }

    /** ptsend from the check of `ptfree` on; false means the panic for want of a node. */
    method SendTail(p: int, msg: Message) returns (ok: bool)
      requires Memory() && GoodId(p) && abs.ports[p].state == ALLOC
      modifies this
      ensures ok == (old(abs.free) != [])
      ensures if ok then Memory() && abs == PortProtocol.SendTail(old(abs), p, msg).s else abs == old(abs) && Memory()
    {
      hide Represents;
      RepPort(porttab, ptfree, ptnext, ptmsg, calls, abs, p);
      if ptfree == NULL { FreeNotNull(ptnext, abs.free); return false; }
      SendTailMemory(porttab, ptfree, ptnext, ptmsg, calls, abs, p, msg);
      var msgnode := ptfree;
      ptfree := ptnext[msgnode];
      ptnext := ptnext[msgnode := NULL];
      ptmsg := ptmsg[msgnode := msg];
      var tailnode := porttab[p].pttail;
      var e := porttab[p];
      if tailnode == NULL {
        e := e.(pthead := msgnode, pttail := msgnode);
      } else {
        ptnext := ptnext[tailnode := msgnode];
        e := e.(pttail := msgnode);
      }
      calls := WakeCalls(calls, Woken(e.ptrsem));
      porttab := porttab[p := e.(ptrsem := SemSignal(e.ptrsem))];
      abs := PortProtocol.SendTail(abs, p, msg).s;
      ok := true;
    }

    /** ptrecv from the access to `pthead` on. */
    method RecvTail(p: int) returns (msg: Message)
      requires Memory() && GoodId(p) && abs.ports[p].state == ALLOC && abs.ports[p].items != []
      modifies this
      ensures Memory() && Done(abs, Got(msg)) == PortProtocol.RecvTail(old(abs), p)
    {
      hide Represents;
      RepPort(porttab, ptfree, ptnext, ptmsg, calls, abs, p);
      RecvTailMemory(porttab, ptfree, ptnext, ptmsg, calls, abs, p);
      var e := porttab[p];
      var msgnode := e.pthead;
      msg := ptmsg[msgnode];
      if e.pthead == e.pttail {
        e := e.(pthead := NULL, pttail := NULL);
      } else {
        e := e.(pthead := ptnext[msgnode]);
      }
      ptnext := ptnext[msgnode := ptfree];
      ptfree := msgnode;
      calls := WakeCalls(calls, Woken(e.ptssem));
      porttab := porttab[p := e.(ptssem := SemSignal(e.ptssem))];
      abs := PortProtocol.RecvTail(abs, p).s;
    }

    /** `wait` on a semaphore of port `p`: true if the caller blocks. */
    method Wait(pid: Pid, p: int, kind: Kind) returns (blocks: bool)
      requires Memory() && GoodId(p) && abs.ports[p].state == ALLOC && pid !in abs.pend
      modifies this
      ensures Memory()
      ensures
        var port := old(abs).ports[p];
        var sem := if kind.Sending? then port.ssem else port.rsem;
        var port' := if kind.Sending? then port.(ssem := SemWait(sem, pid)) else port.(rsem := SemWait(sem, pid));
        && blocks == (sem.count - 1 < 0)
        && abs == old(abs).(ports := old(abs).ports[p := port'],
                            pend := if blocks then old(abs).pend[pid := Pending(p, port.seqno, kind, false)]
                                else old(abs).pend)
    {
      hide Represents;
      RepPort(porttab, ptfree, ptnext, ptmsg, calls, abs, p);
      OtherFields(porttab, ptfree, ptnext, ptmsg, calls, abs);
      var e := porttab[p];
      var sem := if kind.Sending? then e.ptssem else e.ptrsem;
      ghost var port := abs.ports[p];
      var seqno := e.ptseq;
      blocks := sem.count - 1 < 0;
      var e' := if kind.Sending? then e.(ptssem := SemWait(sem, pid)) else e.(ptrsem := SemWait(sem, pid));
      ghost var port' := if kind.Sending? then port.(ssem := SemWait(sem, pid)) else port.(rsem := SemWait(sem, pid));
      ghost var t := abs.(ports := abs.ports[p := port'],
                          pend := if blocks then abs.pend[pid := Pending(p, port.seqno, kind, false)] else abs.pend);
      var calls' := if blocks then calls[pid := Call(p, seqno, kind, false)] else calls;
      if blocks { CallsPlus(calls, abs.pend, pid, Pending(p, port.seqno, kind, false), calls', t.pend); }
      FieldsMemory(porttab, ptfree, ptnext, ptmsg, calls, abs, t, p, e', calls');
      porttab := porttab[p := e'];
      calls := calls';
      abs := t;
    }

    /** ptsend, up to the point where it blocks or returns. */
    method PtSend(pid: Pid, portid: int, msg: Message) returns (o: Outcome)
      requires Valid() && pid !in abs.pend
      modifies this
      ensures Matches(o, abs, Step(old(abs), EvSend(pid, portid, msg))) && (!o.Panics? ==> Valid())
      ensures !o.Crashes? && (Inv(old(abs)) && !o.Panics? ==> Inv(abs))
      ensures o == Returns(OK) ==>
                && GoodId(portid) && |abs.ports| == |old(abs).ports| == NPORTS
                && Messages(abs.ports[portid].items) == Messages(old(abs).ports[portid].items) + [msg]
      ensures o == Blocks ==> pid in abs.pend && abs.pend[pid].port == portid && abs.pend[pid].kind == Sending(msg)
    {
      hide Represents, Inv, Orderly, PortProtocol.SendTail;
      ghost var s := abs;
      OrderlySize(s);
      SendOutcome(s, pid, portid, msg);
      if Inv(s) { StepKeeps(s, EvSend(pid, portid, msg)); }
      if Goes(Step(s, EvSend(pid, portid, msg))) { StepOrderly(s, EvSend(pid, portid, msg)); }
      OtherFields(porttab, ptfree, ptnext, ptmsg, calls, abs);
      if portid < 0 || portid >= NPORTS || porttab[portid].ptstate != ALLOC { return Returns(SYSERR); }
      var blocks := Wait(pid, portid, Sending(msg));
      if blocks { return Blocks; }
      TailEnds(abs, portid, msg);
      var ok := SendTail(portid, msg);
      if !ok { return Panics; }
      TailReply(s.(ports := s.ports[portid := s.ports[portid].(ssem := SemWait(s.ports[portid].ssem, pid))]), portid,
          msg);
      o := Returns(OK);
    }

    /** ptrecv, up to the point where it blocks or returns.  It follows a null list head only in a state that some
        process reached with an accession number come round. */
    method PtRecv(pid: Pid, portid: int) returns (o: Outcome)
      requires Valid() && pid !in abs.pend
      modifies this
      ensures Matches(o, abs, Step(old(abs), EvRecv(pid, portid))) && (!o.Crashes? ==> Valid())
      ensures Inv(old(abs)) ==> !o.Crashes? && Inv(abs)
    {
      hide Represents, Inv, Orderly, PortProtocol.RecvTail;
      ghost var s := abs;
      OrderlySize(s);
      if Inv(s) { RecvCallKeeps(s, pid, portid); }
      if Goes(Step(s, EvRecv(pid, portid))) { StepOrderly(s, EvRecv(pid, portid)); }
      OtherFields(porttab, ptfree, ptnext, ptmsg, calls, abs);
      if portid < 0 || portid >= NPORTS || porttab[portid].ptstate != ALLOC { return Returns(SYSERR); }
      var blocks := Wait(pid, portid, Receiving);
      if blocks { return Blocks; }
      RecvTailEnds(abs, portid);
      NullHead(porttab, ptfree, ptnext, ptmsg, calls, abs, portid);
      if porttab[portid].pthead == NULL { return Crashes; }
      var msg := RecvTail(portid);
      o := Returns(Got(msg));
    }

    /** ptsend or ptrecv going on after its `wait`: the test of state and sequence number, then the tail. */
    method AfterWait(pid: Pid) returns (o: Outcome)
      requires Valid() && pid in abs.pend && abs.pend[pid].released && GoodId(abs.pend[pid].port)
      modifies this
      ensures Matches(o, abs, Step(old(abs), EvResume(pid))) && (!o.Panics? && !o.Crashes? ==> Valid())
      ensures |old(abs).ports| == NPORTS
      ensures Inv(old(abs)) && Unwrapped(old(abs), EvResume(pid)) ==> !o.Crashes? && (!o.Panics? ==> Inv(abs))
    {
      hide Represents, Inv, Orderly, Unwrapped, PortProtocol.RecvTail, PortProtocol.SendTail;
      ghost var s := abs;
      OrderlySize(s);
      if Inv(s) && Unwrapped(s, EvResume(pid)) { StepKeeps(s, EvResume(pid)); }
      if Goes(Step(s, EvResume(pid))) { StepOrderly(s, EvResume(pid)); }
      OtherFields(porttab, ptfree, ptnext, ptmsg, calls, abs);
      RepCalls(porttab, ptfree, ptnext, ptmsg, calls, abs, pid);
      var c := calls[pid];
      var portid := c.port;
      CallsMinus(calls, abs.pend, pid);
      ghost var t := s.(pend := s.pend - {pid});
      FieldsMemory(porttab, ptfree, ptnext, ptmsg, calls, s, t, portid, porttab[portid], calls - {pid});
      assert porttab[portid := porttab[portid]] == porttab;
      calls := calls - {pid};
      abs := t;
      if porttab[portid].ptstate != ALLOC || porttab[portid].ptseq != c.seqno { return Returns(SYSERR); }
      if c.kind.Sending? {
        TailEnds(t, portid, c.kind.msg);
        TailReply(t, portid, c.kind.msg);
        var ok := SendTail(portid, c.kind.msg);
        if !ok { return Panics; }
        return Returns(OK);
      }
      RecvTailEnds(t, portid);
      NullHead(porttab, ptfree, ptnext, ptmsg, calls, t, portid);
      if porttab[portid].pthead == NULL { return Crashes; }
      var msg := RecvTail(portid);
      o := Returns(Got(msg));
    }

    /** The walk of `_ptclear` over the message list: the messages handed to the disposal function, in order. */
    method Dispose(p: int) returns (disposed: seq<Message>)
      requires Memory() && GoodId(p) && HasList(abs.ports[p])
      ensures disposed == Messages(abs.ports[p].items)
    {
      hide Represents, Chain, Link;
      RepPort(porttab, ptfree, ptnext, ptmsg, calls, abs, p);
      ghost var items := abs.ports[p].items;
      var walk := porttab[p].pthead;
      disposed := [];
      ghost var i := 0;
      while walk != NULL
        invariant 0 <= i <= |items| && disposed == Messages(items[..i])
        invariant walk == First(Nodes(items[i..])) && Chain(ptnext, Nodes(items[i..]))
        decreases |items| - i
      {
        assert items[i..][0] == items[i] && Nodes(items[i..])[0] == items[i].node;
        ChainTail(ptnext, Nodes(items[i..]));
        assert HoldsMessage(ptmsg, items[i]);
        MessagesHead(items[i..]);
        assert items[i..][1..] == items[i + 1..];
        MessagesAppend(items[..i], items[i]);
        assert items[..i] + [items[i]] == items[..i + 1];
        disposed := disposed + [ptmsg[walk]];
        walk := ptnext[walk];
        i := i + 1;
      }
      if i < |items| {
        ChainTail(ptnext, Nodes(items[i..]));
      }
      assert items[..|items|] == items;
    }

    /** ptreset and ptdelete up to and with the disposal of the messages; `None` stands for SYSERR. */
    method ClearStart(portid: int, delete: bool) returns (o: Outcome, disposed: seq<Message>)
      requires Valid()
      modifies this
      ensures Valid() && Matches(o, abs, Step(old(abs), EvClear(portid, delete)))
      ensures Inv(old(abs)) ==> Inv(abs)
      ensures o.Blocks? ==> GoodId(portid) && disposed == Messages(old(abs).ports[portid].items)
    {
      hide Represents, Inv, Orderly;
      disposed := [];
      OrderlySize(abs);
      if Inv(abs) { StepKeeps(abs, EvClear(portid, delete)); }
      StepOrderly(abs, EvClear(portid, delete));
      OtherFields(porttab, ptfree, ptnext, ptmsg, calls, abs);
      if portid < 0 || portid >= NPORTS || porttab[portid].ptstate != ALLOC { return Returns(SYSERR), []; }
      ghost var t := PortProtocol.ClearStart(abs, portid, delete).s;
      var e := porttab[portid].(ptstate := LIMBO, ptseq := (porttab[portid].ptseq + 1) % SEQS);
      NextSeq(abs.ports[portid].seqno);
      FieldsMemory(porttab, ptfree, ptnext, ptmsg, calls, abs, t, portid, e, calls);
      porttab := porttab[portid := e];
      abs := t;
      disposed := Dispose(portid);
      o := Blocks;
    }

    /** The list is freed and the sender semaphore reset or deleted. */
    method ClearSenders(portid: int, delete: bool)
      requires Valid() && GoodId(portid) && abs.ports[portid].stage == Draining(delete)
      modifies this
      ensures Valid() && abs == PortProtocol.ClearSenders(old(abs), portid) && (Inv(old(abs)) ==> Inv(abs))
    {
      hide Represents, Inv, Orderly;
      if Inv(abs) { ClearSendersKeeps(abs, portid); }
      StepOrderly(abs, EvClearSenders(portid));
      DrainingInLimbo(abs, portid);
      OtherFields(porttab, ptfree, ptnext, ptmsg, calls, abs);
      var e := porttab[portid];
      var e' := if delete then e.(ptssem := SemDelete(e.ptssem))
                else e.(pthead := NULL, pttail := NULL, ptssem := Sem(e.ptmaxcnt, []));
      ClearSendersMemory(porttab, ptfree, ptnext, ptmsg, calls, abs, portid, e');
      if e.pthead != NULL {
        ptnext := ptnext[e.pttail := ptfree];
        ptfree := e.pthead;
      }
      calls := WakeCalls(calls, e.ptssem.queue);
      porttab := porttab[portid := e'];
      abs := PortProtocol.ClearSenders(abs, portid);
    }

    /** The receiver semaphore is reset or deleted. */
    method ClearReceivers(portid: int, delete: bool)
      requires Valid() && GoodId(portid) && abs.ports[portid].stage == SendersFreed(delete)
      modifies this
      ensures Valid() && abs == PortProtocol.ClearReceivers(old(abs), portid) && (Inv(old(abs)) ==> Inv(abs))
    {
      hide Represents, Inv, Orderly, CallOK;
      if Inv(abs) { ClearReceiversKeeps(abs, portid); }
      StepOrderly(abs, EvClearReceivers(portid));
      SendersFreedInLimbo(abs, portid);
      OtherFields(porttab, ptfree, ptnext, ptmsg, calls, abs);
      var e := porttab[portid];
      var e' := e.(ptrsem := if delete then SemDelete(e.ptrsem) else Sem(0, []));
      ghost var t := PortProtocol.ClearReceivers(abs, portid);
      WakeCallsOK(calls, abs.pend, e.ptrsem.queue);
      FieldsMemory(porttab, ptfree, ptnext, ptmsg, calls, abs, t, portid, e', WakeCalls(calls, e.ptrsem.queue));
      calls := WakeCalls(calls, e.ptrsem.queue);
      porttab := porttab[portid := e'];
      abs := t;
    }

    /** The last step of `_ptclear`, and for ptdelete the note of the port as the next to try. */
    method ClearEnd(portid: int, delete: bool)
      requires Valid() && GoodId(portid) && abs.ports[portid].stage == ReceiversFreed(delete)
      modifies this
      ensures Valid() && abs == PortProtocol.ClearEnd(old(abs), portid) && (Inv(old(abs)) ==> Inv(abs))
    {
      hide Represents, Inv, Orderly, CallOK;
      if Inv(abs) { ClearEndKeeps(abs, portid); }
      StepOrderly(abs, EvClearEnd(portid));
      SendersFreedInLimbo(abs, portid);
      OtherFields(porttab, ptfree, ptnext, ptmsg, calls, abs);
      var e := porttab[portid].(ptstate := if delete then FREE else ALLOC);
      ghost var t := PortProtocol.ClearEnd(abs, portid);
      FieldsMemory(porttab, ptfree, ptnext, ptmsg, calls, abs, t, portid, e, calls);
      porttab := porttab[portid := e];
      if delete { ptnextid := portid; }
      abs := t;
    }

    /** The loop of ptcreate: the next free entry from `ptnextid` on, or NULL. */
    method NextFree() returns (ptnum: int)
      requires Memory()
      modifies this`ptnextid
      ensures ptnum == Scan(abs.ports, abs.nextid, NPORTS)
      ensures ptnextid == if ptnum == -1 then abs.nextid else (ptnum + 1) % NPORTS
    {
      hide Represents, Scan;
      OtherFields(porttab, ptfree, ptnext, ptmsg, calls, abs);
      var i := 0;
      while i < NPORTS
        invariant 0 <= i <= NPORTS && ptnextid == (abs.nextid + i) % NPORTS
        invariant Scan(abs.ports, ptnextid, NPORTS - i) == Scan(abs.ports, abs.nextid, NPORTS)
      {
        ScanStep(abs.ports, ptnextid, NPORTS - i);
        ptnum := ptnextid;
        ptnextid := ptnextid + 1;
        if ptnextid >= NPORTS { ptnextid := 0; }
        if porttab[ptnum].ptstate == FREE { return; }
        i := i + 1;
      }
      ScanNone(abs.ports, ptnextid);
      ptnum := -1;
    }

    /** ptcreate, with semaphores to be had. */
    method PtCreate(count: int) returns (r: Reply)
      requires Valid()
      modifies this
      ensures Valid() && Done(abs, r) == Create(old(abs), count) && (Inv(old(abs)) ==> Inv(abs))
    {
      hide Represents, Inv, Orderly, CallOK, Scan;
      OrderlySize(abs);
      if Inv(abs) { CreateKeeps(abs, count); }
      CreateTidy(abs, count);
      OtherFields(porttab, ptfree, ptnext, ptmsg, calls, abs);
      if count < 0 { return SYSERR; }
      ghost var s := abs;
      var ptnum := NextFree();
      if ptnum == -1 { return SYSERR; }
      var e := Entry(ALLOC, Sem(count, []), Sem(0, []), count % MAXCNT, (porttab[ptnum].ptseq + 1) % SEQS, NULL, NULL);
      NextSeq(s.ports[ptnum].seqno);
      CreatedMemory(porttab, ptfree, ptnext, ptmsg, calls, s, count, ptnum, e);
      porttab := porttab[ptnum := e];
      abs := Create(s, count).s;
      r := NewPort(ptnum);
    }

    /** ptinit: all ports free, and the nodes linked into the free list one after the other. */
    constructor (maxmsgs: nat)
      requires maxmsgs > 0
      ensures Valid() && abs == Start(maxmsgs) && Inv(abs)
    {
      porttab := seq(NPORTS, _ => Entry(FREE, Sem(0, []), Sem(0, []), 0, 0, NULL, NULL));
      ptfree, ptnext, ptmsg, ptnextid, calls := 0, map[], map[], 0, map[];
      abs := Start(maxmsgs);
      new;
      var next, curr := 0, 0;
      var left := maxmsgs - 1;
      while left > 0
        invariant left >= 0 && next == curr == maxmsgs - 1 - left
        invariant forall x :: 0 <= x < curr ==> x in ptnext && ptnext[x] == x + 1
        invariant abs == Start(maxmsgs) && ptfree == 0 && ptnextid == 0 && calls == map[]
        invariant porttab == seq(NPORTS, _ => Entry(FREE, Sem(0, []), Sem(0, []), 0, 0, NULL, NULL))
      {
        next := next + 1;
        ptnext := ptnext[curr := next];
        curr := next;
        left := left - 1;
      }
      ptnext := ptnext[curr := NULL];
      StartInv(maxmsgs);
      StartMemory(porttab, ptnext, maxmsgs);
    }
  }

  lemma StartMemory(porttab: seq<Entry>, ptnext: map<int, int>, maxmsgs: nat)
    requires porttab == seq(NPORTS, _ => Entry(FREE, Sem(0, []), Sem(0, []), 0, 0, NULL, NULL))
    requires maxmsgs > 0
    requires forall x :: 0 <= x < maxmsgs ==> x in ptnext && ptnext[x] == if x + 1 < maxmsgs then x + 1 else NULL
    ensures Represents(porttab, 0, ptnext, map[], map[], Start(maxmsgs))
  {
    hide Times;
    var s := Start(maxmsgs);
    forall i | 0 <= i < |s.free| ensures Link(ptnext, s.free, i) { }
    forall n ensures AtMostOnce(s, n) {
      StartNodes(s.ports, n);
      EachOnce(maxmsgs, n);
    }
  }

  lemma ScanStep(ports: seq<Port>, id: int, left: nat)
    requires |ports| == NPORTS && GoodId(id) && left > 0
    ensures ports[id].state == FREE ==> Scan(ports, id, left) == id
    ensures ports[id].state != FREE ==> Scan(ports, id, left) == Scan(ports, (id + 1) % NPORTS, left - 1)
  {
  }

  lemma ScanNone(ports: seq<Port>, id: int)
    requires |ports| == NPORTS && GoodId(id)
    ensures Scan(ports, id, 0) == -1
  {
  }

  lemma CreatedMemory(porttab: seq<Entry>, ptfree: int, ptnext: map<int, int>, ptmsg: map<int, int>, calls: map<Pid,
                      Call>,
                      s: State, count: int, p: int, e: Entry)
    requires Represents(porttab, ptfree, ptnext, ptmsg, calls, s) && Orderly(s) && count >= 0
    requires Scan(s.ports, s.nextid, NPORTS) == p && p != -1
    requires e == Entry(ALLOC, Sem(count, []), Sem(0, []), count % MAXCNT, (s.ports[p].seqno + 1) % SEQS, NULL, NULL)
    ensures Represents(porttab[p := e], ptfree, ptnext, ptmsg, calls, Create(s, count).s)
  {
    hide Chain, OnePlace, CallOK, SameNodes, Scan, Orderly;
    OrderlySize(s);
    var t := Create(s, count).s;
    TidyHere(s, p);
    forall n ensures SameNodes(s, t, n) { SameItemsNodes(s, t, p, t.ports[p], n); }
    OnePlaceKept(s, t);
    assert Nodes([]) == [];
    assert ListOK(NULL, NULL, [], ptnext, ptmsg) by { EmptyChain(ptnext); }
  }

  lemma EmptyChain(ptnext: map<int, int>)
    ensures Chain(ptnext, [])
  {
  }

  lemma NextSeq(n: int)
    ensures (n % SEQS + 1) % SEQS == (n + 1) % SEQS
  {
  }

  lemma DrainingInLimbo(s: State, p: int)
    requires Orderly(s) && GoodId(p) && s.ports[p].stage.Draining?
    ensures s.ports[p].state == LIMBO
  {
    TidyHere(s, p);
  }

  lemma SendersFreedInLimbo(s: State, p: int)
    requires Orderly(s) && GoodId(p) && (s.ports[p].stage.SendersFreed? || s.ports[p].stage.ReceiversFreed?)
    ensures s.ports[p].state == LIMBO && s.ports[p].items == []
  {
    TidyHere(s, p);
  }

  /** The head of the list of a port in use is null exactly when it holds no message. */
  lemma NullHead(porttab: seq<Entry>, ptfree: int, ptnext: map<int, int>, ptmsg: map<int, int>, calls: map<Pid, Call>,
                 s: State, p: int)
    requires Represents(porttab, ptfree, ptnext, ptmsg, calls, s) && GoodId(p) && |s.ports| == NPORTS
              && s.ports[p].state == ALLOC
    ensures |porttab| == NPORTS && (porttab[p].pthead == NULL <==> s.ports[p].items == [])
  {
    hide OnePlace, CallOK;
    if s.ports[p].items != [] { ChainTail(ptnext, Nodes(s.ports[p].items)); }
  }

  lemma TailReply(t: State, p: int, msg: Message)
    requires |t.ports| == NPORTS && GoodId(p)
    ensures PortProtocol.SendTail(t, p, msg).Done? ==> PortProtocol.SendTail(t, p, msg).reply == OK
  {
  }

  lemma FreeNotNull(ptnext: map<int, int>, free: seq<int>)
    requires Chain(ptnext, free) && First(free) == NULL
    ensures free == []
  {
    if free != [] { ChainTail(ptnext, free); }
  }
}
