/** What happens when a process waits at a port through a multiple of 2^32 resets: no bound of the protocol survives
    it.  The runs are long but not special; only ptreset is called over and over. */
module PortWraps {
  import opened PortProtocol
  import opened PortSafety
  import opened PortRuns

  /** ptreset of port 0, with nothing in between. */
  function Cycle(): seq<Event> {
    [EvClear(0, false), EvClearSenders(0), EvClearReceivers(0), EvClearEnd(0)]
  }

  function Cycles(n: nat): seq<Event> {
    if n == 0 then [] else Cycle() + Cycles(n - 1)
  }

  /** What one ptreset of port 0 does. */
  function AfterReset(s: State): State
    requires |s.ports| == NPORTS
  {
    var port := s.ports[0];
    var port' := port.(ssem := Sem(port.maxcnt, []), rsem := Sem(0, []), cap := port.maxcnt, seqno := port.seqno + 1,
                       items := [], gone := port.gone + Messages(port.items));
    State(s.ports[0 := port'], Nodes(port.items) + s.free, Wake(Wake(s.pend, port.ssem.queue), port.rsem.queue),
        s.nextid)
  }

  lemma CycleRun(s: State)
    requires |s.ports| == NPORTS && s.ports[0].state == ALLOC && s.ports[0].stage.Idle?
    ensures Path(s, Cycle()) && Run(s, Cycle()) == AfterReset(s)
  {
    var s1 := Step(s, EvClear(0, false)).s;
    var s2 := Step(s1, EvClearSenders(0)).s;
    var s3 := Step(s2, EvClearReceivers(0)).s;
    var s4 := Step(s3, EvClearEnd(0)).s;
    assert s4.ports == AfterReset(s).ports;
    assert s4 == AfterReset(s);
    hide Step, Enabled, AfterReset;
    assert Path(s4, []) && Run(s4, []) == s4;
    PathCons(s3, EvClearEnd(0), []);
    PathCons(s2, EvClearReceivers(0), [EvClearEnd(0)]);
    PathCons(s1, EvClearSenders(0), [EvClearReceivers(0), EvClearEnd(0)]);
    PathCons(s, EvClear(0, false), [EvClearSenders(0), EvClearReceivers(0), EvClearEnd(0)]);
  }

  /** Process `pid` is released at port 0, which has been reset and not been used since. */
  ghost predicate Forgotten(t: State, pid: Pid, entry: int, kind: Kind) {
    && |t.ports| == NPORTS && t.ports[0].state == ALLOC && t.ports[0].stage.Idle? && t.ports[0].items == []
    && t.ports[0].ssem == Sem(t.ports[0].maxcnt, []) && t.ports[0].rsem == Sem(0, [])
       && t.ports[0].cap == t.ports[0].maxcnt
    && pid in t.pend && t.pend[pid] == Pending(0, entry, kind, true)
  }

  /** Any number of resets of port 0 can pass a released process by. */
  lemma {:induction false} CyclesRun(s: State, n: nat, pid: Pid, entry: int, kind: Kind)
    requires Forgotten(s, pid, entry, kind)
    ensures Path(s, Cycles(n))
    ensures Run(s, Cycles(n)) == s.(ports := s.ports[0 := s.ports[0].(seqno := s.ports[0].seqno + n)])
    decreases n
  {
    if n > 0 {
      CycleRun(s);
      ResetIdle(s, pid, entry, kind);
      hide AfterReset, Cycle;
      CyclesRun(AfterReset(s), n - 1, pid, entry, kind);
      PathAppend(s, Cycle(), Cycles(n - 1));
    } else {
      assert s.ports[0 := s.ports[0].(seqno := s.ports[0].seqno + 0)] == s.ports;
    }
  }

  /** Resetting a port that nobody has used only counts. */
  lemma ResetIdle(s: State, pid: Pid, entry: int, kind: Kind)
    requires Forgotten(s, pid, entry, kind)
    ensures AfterReset(s) == s.(ports := s.ports[0 := s.ports[0].(seqno := s.ports[0].seqno + 1)])
    ensures Forgotten(AfterReset(s), pid, entry, kind)
  {
    assert s.ports[0].gone + Messages([]) == s.ports[0].gone && Nodes([]) + s.free == s.free;
    assert Wake(s.pend, []) == s.pend;
  }

  /** A process blocked at port 0 can be left behind by any number `n` of resets, of which the first releases it. */
  lemma LeftBehind(s: State, pid: Pid, kind: Kind, n: nat)
    requires n > 0 && |s.ports| == NPORTS && s.ports[0].state == ALLOC && s.ports[0].stage.Idle?
    requires pid in s.pend && s.pend[pid] == Pending(0, s.ports[0].seqno, kind, false)
    requires pid in (if kind.Sending? then s.ports[0].ssem.queue else s.ports[0].rsem.queue)
    ensures Path(s, Cycles(n))
    ensures
      var t := Run(s, Cycles(n));
      && Forgotten(t, pid, s.ports[0].seqno, kind) && t.ports[0].seqno == s.ports[0].seqno + n
      && t.ports[0].maxcnt == s.ports[0].maxcnt && t.free == Nodes(s.ports[0].items) + s.free
         && t.pend.Keys == s.pend.Keys
      && Stale(t, pid)
      && (Wrapped(t.ports[0], t.pend[pid].seqno) <==> n % SEQS == 0)
  {
    hide AfterReset, Cycle, Wake, Step, Enabled, Path, Run, Wrapped, Cycles, Forgotten, Nodes;
    CycleRun(s);
    FirstReset(s, pid, kind);
    var u := AfterReset(s);
    CyclesRun(u, n - 1, pid, s.ports[0].seqno, kind);
    PathAppend(s, Cycle(), Cycles(n - 1));
    CyclesMore(n);
    StillForgotten(u, Run(u, Cycles(n - 1)), n - 1, pid, s.ports[0].seqno, kind);
  }

  lemma CyclesMore(n: nat)
    requires n > 0
    ensures Cycles(n) == Cycle() + Cycles(n - 1)
  {
  }

  lemma StillForgotten(u: State, t: State, n: nat, pid: Pid, entry: int, kind: Kind)
    requires Forgotten(u, pid, entry, kind)
              && t == u.(ports := u.ports[0 := u.ports[0].(seqno := u.ports[0].seqno + n)])
    requires u.ports[0].seqno == entry + 1
    ensures Forgotten(t, pid, entry, kind) && t.ports[0].seqno == entry + n + 1
              && t.ports[0].maxcnt == u.ports[0].maxcnt
    ensures Stale(t, pid) && t.pend[pid].seqno == entry && (Wrapped(t.ports[0], entry) <==> (n + 1) % SEQS == 0)
  {
  }

  lemma FirstReset(s: State, pid: Pid, kind: Kind)
    requires |s.ports| == NPORTS && s.ports[0].state == ALLOC && s.ports[0].stage.Idle?
    requires pid in s.pend && s.pend[pid] == Pending(0, s.ports[0].seqno, kind, false)
    requires pid in (if kind.Sending? then s.ports[0].ssem.queue else s.ports[0].rsem.queue)
    ensures
      var u := AfterReset(s);
      && Forgotten(u, pid, s.ports[0].seqno, kind) && u.ports[0].seqno == s.ports[0].seqno + 1
      && u.ports[0].maxcnt == s.ports[0].maxcnt && u.free == Nodes(s.ports[0].items) + s.free
         && u.pend.Keys == s.pend.Keys
  {
  }

  // ---------- A receiver ----------

  /** A receiver blocks at a new port. */
  function WithReceiver(): seq<Event> {
    [EvCreate(1), EvRecv(1, 0)]
  }

  lemma ReceiverWaits() returns (s: State)
    ensures Path(Start(1), WithReceiver()) && s == Run(Start(1), WithReceiver())
    ensures |s.ports| == NPORTS && s.ports[0].state == ALLOC && s.ports[0].stage.Idle? && s.ports[0].rsem.queue == [1]
    ensures 1 in s.pend && s.pend[1] == Pending(0, s.ports[0].seqno, Receiving, false)
  {
    var s0 := Start(1);
    assert Scan(s0.ports, 0, NPORTS) == 0;
    var s1 := Step(s0, EvCreate(1)).s;
    s := Step(s1, EvRecv(1, 0)).s;
    assert s.ports[0].rsem == Sem(-1, [1]);
    hide Step, Enabled, Start;
    PathCons(s1, EvRecv(1, 0), []);
    PathCons(s0, EvCreate(1), [EvRecv(1, 0)]);
  }

  /** It comes through `n` resets, `n` positive, with SYSERR, or, if `n` is a multiple of 2^32, follows the null head
      of the empty message list. */
  lemma ReceiverCrashesIff(n: nat)
    requires n > 0
    ensures
      var es := WithReceiver() + Cycles(n);
      && Path(Start(1), es)
      && var t := Run(Start(1), es);
      && |t.ports| == NPORTS && Enabled(t, EvResume(1))
      && (Step(t, EvResume(1)).NullDereference? <==> n % SEQS == 0)
  {
    hide Path, Run, Start, Cycles, WithReceiver;
    var s := ReceiverWaits();
    LeftBehind(s, 1, Receiving, n);
    PathAppend(Start(1), WithReceiver(), Cycles(n));
    var t := Run(s, Cycles(n));
    StaleTouchesNothingIff(t, 1);
  }

  // ---------- A sender ----------

  /** A sender blocks at a port with one place, which another has taken. */
  function WithSender(): seq<Event> {
    [EvCreate(1), EvSend(2, 0, 7), EvSend(1, 0, 8)]
  }

  lemma SenderWaits(maxmsgs: nat) returns (s: State)
    requires maxmsgs > 0
    ensures Path(Start(maxmsgs), WithSender()) && s == Run(Start(maxmsgs), WithSender())
    ensures |s.ports| == NPORTS && s.ports[0].state == ALLOC && s.ports[0].stage.Idle? && s.ports[0].ssem.queue == [1]
    ensures s.pend == map[1 := Pending(0, s.ports[0].seqno, Sending(8), false)]
    ensures s.ports[0].maxcnt == 1 && |Nodes(s.ports[0].items) + s.free| == maxmsgs
    ensures forall p :: 0 < p < NPORTS ==> s.ports[p].state == FREE
  {
    var s0 := Start(maxmsgs);
    assert Scan(s0.ports, 0, NPORTS) == 0;
    var s1 := Step(s0, EvCreate(1)).s;
    var s2 := Step(s1, EvSend(2, 0, 7)).s;
    s := Step(s2, EvSend(1, 0, 8)).s;
    assert s2.pend == map[];
    hide Step, Enabled, Start;
    PathCons(s2, EvSend(1, 0, 8), []);
    PathCons(s1, EvSend(2, 0, 7), [EvSend(1, 0, 8)]);
    PathCons(s0, EvCreate(1), [EvSend(2, 0, 7), EvSend(1, 0, 8)]);
  }

  /** After a multiple of 2^32 resets it takes a place that nobody gave it: with two nodes there are then two messages
      in a port of size one, and with one node, as many as the sizes of the ports add up to, ptsend panics. */
  lemma SenderOverfills(maxmsgs: nat, n: nat)
    requires 1 <= maxmsgs <= 2 && n > 0 && n % SEQS == 0
    ensures
      var es := WithSender() + Cycles(n) + [EvSend(3, 0, 9)];
      && Path(Start(maxmsgs), es)
      && var t := Run(Start(maxmsgs), es);
      && |t.ports| == NPORTS && Enabled(t, EvResume(1))
      && t.ports[0].maxcnt == 1
      && (maxmsgs == 1 ==> Step(t, EvResume(1)).Panic?)
      && (maxmsgs == 2 ==>
            Step(t, EvResume(1)).Done? && |Step(t, EvResume(1)).s.ports| == NPORTS
            && |Step(t, EvResume(1)).s.ports[0].items| == 2)
  {
    hide Start, Cycles, WithSender;
    var s := SenderWaits(maxmsgs);
    LeftBehind(s, 1, Sending(8), n);
    PathAppend(Start(maxmsgs), WithSender(), Cycles(n));
    var t := Run(s, Cycles(n));
    FullAgain(t, maxmsgs, s.ports[0].seqno);
    PathCons(t, EvSend(3, 0, 9), []);
    PathAppend(Start(maxmsgs), WithSender() + Cycles(n), [EvSend(3, 0, 9)]);
  }

  lemma FullAgain(t: State, maxmsgs: nat, entry: int)
    requires Forgotten(t, 1, entry, Sending(8)) && Wrapped(t.ports[0], entry) && entry < t.ports[0].seqno
    requires 3 !in t.pend && t.ports[0].maxcnt == 1 && |t.free| == maxmsgs && 1 <= maxmsgs <= 2
    ensures
      var e := EvSend(3, 0, 9);
      && Enabled(t, e) && Goes(Step(t, e))
      && var u := Step(t, e).s;
      && |u.ports| == NPORTS && Enabled(u, EvResume(1)) && u.ports[0].maxcnt == 1
      && (maxmsgs == 1 ==> Step(u, EvResume(1)).Panic?)
      && (maxmsgs == 2 ==>
            Step(u, EvResume(1)).Done? && |Step(u, EvResume(1)).s.ports| == NPORTS
            && |Step(u, EvResume(1)).s.ports[0].items| == 2)
  {
    var u := Step(t, EvSend(3, 0, 9)).s;
    StaleFoundIff(u.ports[0].seqno, u.pend[1].seqno);
  }
}
