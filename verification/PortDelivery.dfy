/** Messages from end to end: what the callers of ptsend gave, what the callers of ptrecv got, told by the events of a
    run alone. */
module PortDelivery {
  import opened PortProtocol
  import opened PortSafety
  import opened PortRuns

  /** The call a process made last. */
  datatype Asked = Asked(port: int, kind: Kind)

  function Note(calls: map<Pid, Asked>, e: Event): map<Pid, Asked> {
    match e
    case EvSend(pid, p, m) => calls[pid := Asked(p, Sending(m))]
    case EvRecv(pid, p) => calls[pid := Asked(p, Receiving)]
    case _ => calls
  }

  /** The event is a process going on in its call, and the call was made for port `p`. */
  predicate CallAt(e: Event, calls: map<Pid, Asked>, p: int) {
    (e.EvSend? || e.EvRecv? || e.EvResume?) && e.pid in calls && calls[e.pid].port == p
  }

  /** The argument of a ptsend for port `p` that returns OK in this event. */
  function Accepted(s: State, e: Event, calls: map<Pid, Asked>, p: int): seq<Message>
    requires |s.ports| == NPORTS && Enabled(s, e)
  {
    var r := Step(s, e);
    if CallAt(e, calls, p) && r.Done? && r.reply == OK && calls[e.pid].kind.Sending?
    then [calls[e.pid].kind.msg]
    else []
  }

  /** The message a ptrecv for port `p` returns in this event, or those that a clearing of `p` disposes of. */
  function Taken(s: State, e: Event, calls: map<Pid, Asked>, p: int): seq<Message>
    requires |s.ports| == NPORTS && Enabled(s, e) && GoodId(p)
  {
    var r := Step(s, e);
    if CallAt(e, calls, p) && r.Done? && r.reply.Got? then [r.reply.msg]
    else if e == EvClearSenders(p) then Messages(s.ports[p].items)
    else []
  }

  ghost function AllAccepted(s: State, es: seq<Event>, calls: map<Pid, Asked>, p: int): seq<Message>
    requires Path(s, es)
    decreases |es|
  {
    if es == [] then []
    else Accepted(s, es[0], Note(calls, es[0]), p) + AllAccepted(Step(s, es[0]).s, es[1..], Note(calls, es[0]), p)
  }

  ghost function AllTaken(s: State, es: seq<Event>, calls: map<Pid, Asked>, p: int): seq<Message>
    requires Path(s, es) && GoodId(p)
    decreases |es|
  {
    if es == [] then []
    else Taken(s, es[0], Note(calls, es[0]), p) + AllTaken(Step(s, es[0]).s, es[1..], Note(calls, es[0]), p)
  }

  // ---------- One event ----------

  /** ptsend either returns OK with its message at the end of the port, or blocks with the message kept for later, or
      fails and changes nothing; no other port has anything put in. */
  lemma SendOutcome(s: State, pid: Pid, p: int, m: Message)
    requires |s.ports| == NPORTS && Enabled(s, EvSend(pid, p, m))
    ensures
      match Step(s, EvSend(pid, p, m))
      case Done(t, reply) =>
        if reply == OK then
          && GoodId(p) && |t.ports| == NPORTS && s.ports[p].state == ALLOC && s.ports[p].ssem.count >= 1
          && Messages(t.ports[p].items) == Messages(s.ports[p].items) + [m]
          && t.ports[p].sent == s.ports[p].sent + [m] && OthersSame(s, t, p)
        else reply == SYSERR && t == s && !(GoodId(p) && s.ports[p].state == ALLOC)
      case Blocked(t) =>
        && GoodId(p) && s.ports[p].state == ALLOC && s.ports[p].ssem.count <= 0
        && |t.ports| == NPORTS && pid in t.pend && t.pend[pid] == Pending(p, s.ports[p].seqno, Sending(m), false)
        && t.ports[p].items == s.ports[p].items && t.ports[p].sent == s.ports[p].sent && OthersSame(s, t, p)
      case Panic => s.free == []
      case NullDereference => false
  {
    if GoodId(p) && s.ports[p].state == ALLOC && s.free != [] {
      MessagesAppend(s.ports[p].items, Item(s.free[0], m));
    }
  }

  /** The other ports are as they were. */
  ghost predicate OthersSame(s: State, t: State, p: int)
    requires |s.ports| == |t.ports| == NPORTS
  {
    forall q :: 0 <= q < NPORTS && q != p ==> t.ports[q] == s.ports[q]
  }

  /** A blocked sender that goes on either puts in the message it came with, or fails. */
  lemma ResumeOutcome(s: State, pid: Pid)
    requires |s.ports| == NPORTS && Enabled(s, EvResume(pid)) && s.pend[pid].kind.Sending?
    ensures
      var p, m := s.pend[pid].port, s.pend[pid].kind.msg;
      match Step(s, EvResume(pid))
      case Done(t, reply) =>
        if reply == OK then
          && |t.ports| == NPORTS && pid !in t.pend && OthersSame(s, t, p)
          && Messages(t.ports[p].items) == Messages(s.ports[p].items) + [m]
          && t.ports[p].sent == s.ports[p].sent + [m]
        else reply == SYSERR && t == s.(pend := s.pend - {pid})
      case Blocked(t) => false
      case Panic => s.free == []
      case NullDereference => false
  {
    var p := s.pend[pid].port;
    if s.free != [] { MessagesAppend(s.ports[p].items, Item(s.free[0], s.pend[pid].kind.msg)); }
  }

  // ---------- Runs ----------

  /** The notes say what the pending processes wait for. */
  ghost predicate Noted(s: State, calls: map<Pid, Asked>) {
    forall pid :: pid in s.pend ==> NotedAt(s, calls, pid)
  }

  ghost predicate NotedAt(s: State, calls: map<Pid, Asked>, pid: Pid) {
    pid in s.pend ==> pid in calls && calls[pid] == Asked(s.pend[pid].port, s.pend[pid].kind)
  }

  lemma StepNoted(s: State, e: Event, calls: map<Pid, Asked>)
    requires |s.ports| == NPORTS && Enabled(s, e) && Goes(Step(s, e)) && Noted(s, calls)
    ensures Noted(Step(s, e).s, Note(calls, e))
  {
    hide Scan;
    forall pid ensures NotedAt(Step(s, e).s, Note(calls, e), pid) { assert NotedAt(s, calls, pid); }
  }

  /** What an event adds to what was ever sent to a port, and to what is gone from it. */
  lemma StepDelivers(s: State, e: Event, calls: map<Pid, Asked>, p: int)
    requires |s.ports| == NPORTS && Enabled(s, e) && Goes(Step(s, e)) && Noted(s, calls) && GoodId(p)
    ensures
      var t := Step(s, e).s;
      && |t.ports| == NPORTS
      && t.ports[p].sent == s.ports[p].sent + Accepted(s, e, Note(calls, e), p)
      && t.ports[p].gone == s.ports[p].gone + Taken(s, e, Note(calls, e), p)
  {
    hide Scan, Noted;
    match e
    case EvSend(pid, q, m) => SendDelivers(s, pid, q, m, calls, p);
    case EvRecv(pid, q) =>
    case EvResume(pid) => NotedHere(s, calls, pid); ResumeDelivers(s, pid, calls, p);
    case EvClear(q, d) =>
    case EvClearSenders(q) =>
    case EvClearReceivers(q) =>
    case EvClearEnd(q) =>
    case EvCreate(n) =>
    case EvKill(pid) =>
  }

  lemma NotedHere(s: State, calls: map<Pid, Asked>, pid: Pid)
    requires Noted(s, calls) && pid in s.pend
    ensures pid in calls && calls[pid] == Asked(s.pend[pid].port, s.pend[pid].kind)
  {
    assert NotedAt(s, calls, pid);
  }

  lemma SendDelivers(s: State, pid: Pid, q: int, m: Message, calls: map<Pid, Asked>, p: int)
    requires |s.ports| == NPORTS && Enabled(s, EvSend(pid, q, m)) && Goes(Step(s, EvSend(pid, q, m))) && GoodId(p)
    ensures
      var e := EvSend(pid, q, m);
      var t := Step(s, e).s;
      && |t.ports| == NPORTS
      && t.ports[p].sent == s.ports[p].sent + Accepted(s, e, Note(calls, e), p)
      && t.ports[p].gone == s.ports[p].gone + Taken(s, e, Note(calls, e), p)
  {
  }

  lemma ResumeDelivers(s: State, pid: Pid, calls: map<Pid, Asked>, p: int)
    requires |s.ports| == NPORTS && Enabled(s, EvResume(pid)) && Goes(Step(s, EvResume(pid))) && GoodId(p)
    requires pid in calls && calls[pid] == Asked(s.pend[pid].port, s.pend[pid].kind)
    ensures
      var e := EvResume(pid);
      var t := Step(s, e).s;
      && |t.ports| == NPORTS
      && t.ports[p].sent == s.ports[p].sent + Accepted(s, e, Note(calls, e), p)
      && t.ports[p].gone == s.ports[p].gone + Taken(s, e, Note(calls, e), p)
  {
  }

  lemma {:induction false} RunDelivers(s: State, es: seq<Event>, calls: map<Pid, Asked>, p: int)
    requires |s.ports| == NPORTS && Path(s, es) && Noted(s, calls) && GoodId(p)
    ensures
      var t := Run(s, es);
      && |t.ports| == NPORTS
      && t.ports[p].sent == s.ports[p].sent + AllAccepted(s, es, calls, p)
      && t.ports[p].gone == s.ports[p].gone + AllTaken(s, es, calls, p)
    decreases |es|
  {
    hide Step, Enabled, Noted, Accepted, Taken, Note;
    if es != [] {
      StepNoted(s, es[0], calls);
      StepDelivers(s, es[0], calls, p);
      RunDelivers(Step(s, es[0]).s, es[1..], Note(calls, es[0]), p);
    }
  }

  /** In every run, the messages that ptrecv returned from a port or a clearing disposed of, followed by those in the
      port, are the arguments of the ptsend calls for it that returned OK, in the order in which they did. */
  lemma Delivered(maxmsgs: nat, es: seq<Event>, p: int)
    requires Path(Start(maxmsgs), es) && GoodId(p)
    ensures
      var s := Start(maxmsgs);
      var t := Run(s, es);
      |t.ports| == NPORTS && AllAccepted(s, es, map[], p) == AllTaken(s, es, map[], p) + Messages(t.ports[p].items)
  {
    hide Path, Run, AllAccepted, AllTaken;
    var s := Start(maxmsgs);
    Fifo(maxmsgs, es, p);
    assert s.ports[p].sent == [] && s.ports[p].gone == [];
    RunDelivers(s, es, map[], p);
    Prepended([], AllAccepted(s, es, map[], p));
    Prepended([], AllTaken(s, es, map[], p));
  }

  lemma Prepended(a: seq<Message>, b: seq<Message>)
    ensures a == [] ==> a + b == b
  {
  }
}
