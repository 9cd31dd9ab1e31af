/** What creating, resetting and deleting a port leave behind. */
module PortEffects {
  import opened PortProtocol
  import opened PortSafety
  import opened PortDelivery

  /** The port `d` places further round the table. */
  function Round(id: int, d: int): int {
    (id + d) % NPORTS
  }

  /** The scan finds the first free port going round, or none. */
  lemma {:induction false} ScanFirst(ports: seq<Port>, id: int, left: nat)
    requires |ports| == NPORTS && GoodId(id)
    ensures
      var r := Scan(ports, id, left);
      if r == -1 then forall d :: 0 <= d < left ==> ports[Round(id, d)].state != FREE
      else exists d :: 0 <= d < left && FirstFree(ports, id, d) && r == Round(id, d)
    decreases left
  {
    if left > 0 && ports[id].state != FREE {
      var next := (id + 1) % NPORTS;
      ScanFirst(ports, next, left - 1);
      forall d | 0 <= d ensures Round(next, d) == Round(id, d + 1) { RoundNext(id, d); }
      if Scan(ports, next, left - 1) == -1 {
        forall d | 0 <= d < left ensures ports[Round(id, d)].state != FREE {
          if d > 0 { assert Round(next, d - 1) == Round(id, d); }
        }
      } else {
        var d :| 0 <= d < left - 1 && FirstFree(ports, next, d) && Scan(ports, next, left - 1) == Round(next, d);
        FirstFreeNext(ports, id, d);
        assert FirstFree(ports, id, d + 1) && Round(next, d) == Round(id, d + 1);
      }
    } else if left > 0 {
      assert FirstFree(ports, id, 0) && Round(id, 0) == id;
    }
  }

  lemma RoundNext(id: int, d: int)
    requires GoodId(id) && 0 <= d
    ensures Round((id + 1) % NPORTS, d) == Round(id, d + 1)
  {
  }

  ghost predicate FirstFree(ports: seq<Port>, id: int, d: int)
    requires |ports| == NPORTS
  {
    && 0 <= d && ports[Round(id, d)].state == FREE
    && forall j :: 0 <= j < d ==> ports[Round(id, j)].state != FREE
  }

  lemma FirstFreeNext(ports: seq<Port>, id: int, d: int)
    requires |ports| == NPORTS && GoodId(id) && ports[id].state != FREE
    requires FirstFree(ports, (id + 1) % NPORTS, d)
    ensures FirstFree(ports, id, d + 1)
  {
    var next := (id + 1) % NPORTS;
    RoundNext(id, d);
    forall j | 0 <= j < d + 1 ensures ports[Round(id, j)].state != FREE {
      if j > 0 { RoundNext(id, j - 1); assert ports[Round(next, j - 1)].state != FREE; }
    }
  }

  /** ptcreate succeeds exactly if the size is not negative and some port is free; it takes the first free one going
      round, empty and with as many places as asked for, and leaves the others alone; the next scan starts behind it. */
  lemma CreateGives(s: State, count: int)
    requires |s.ports| == NPORTS && GoodId(s.nextid)
    ensures
      var r := Create(s, count);
      && r.Done?
      && (r.reply.NewPort? <==> count >= 0 && exists p :: GoodId(p) && s.ports[p].state == FREE)
      && (!r.reply.NewPort? ==> r == Done(s, SYSERR))
      && (r.reply.NewPort? ==>
            var p := r.reply.id;
            && GoodId(p) && |r.s.ports| == NPORTS && OthersSame(s, r.s, p) && r.s.free == s.free && r.s.pend == s.pend
            && (exists d :: FirstFree(s.ports, s.nextid, d) && p == Round(s.nextid, d)) && r.s.nextid == Round(p, 1)
            && r.s.ports[p].state == ALLOC && r.s.ports[p].items == []
            && r.s.ports[p].ssem == Sem(count, []) && r.s.ports[p].rsem == Sem(0, []) && r.s.ports[p].cap == count)
  {
    hide Scan;
    ScanFirst(s.ports, s.nextid, NPORTS);
    if p :| GoodId(p) && s.ports[p].state == FREE {
      var d := (p - s.nextid) % NPORTS;
      assert Round(s.nextid, d) == p;
    }
  }

  /** A reset or deletion, from its start to its end with nothing in between: all messages are gone and their nodes
      free, everyone who waited is released, and the port is in use again with all its places, or free and the next
      to be given out. */
  lemma ClearLeaves(s: State, p: int, delete: bool)
    requires |s.ports| == NPORTS && GoodId(p) && s.ports[p].state == ALLOC && s.ports[p].stage.Idle?
    ensures
      var es := [EvClear(p, delete), EvClearSenders(p), EvClearReceivers(p), EvClearEnd(p)];
      && Path(s, es)
      && var t := Run(s, es);
      && |t.ports| == NPORTS && OthersSame(s, t, p) && t.ports[p].stage.Idle?
      && t.ports[p].items == [] && t.free == Nodes(s.ports[p].items) + s.free
      && t.ports[p].ssem.queue == t.ports[p].rsem.queue == [] && t.ports[p].seqno == s.ports[p].seqno + 1
      && t.pend.Keys == s.pend.Keys
      && (forall pid :: pid in s.pend && (pid in s.ports[p].ssem.queue || pid in s.ports[p].rsem.queue) ==>
            t.pend[pid].released)
      && (delete ==> t.ports[p].state == FREE && t.nextid == p)
      && (!delete ==>
            && t.ports[p].state == ALLOC && t.nextid == s.nextid
            && t.ports[p].ssem.count == t.ports[p].cap == s.ports[p].maxcnt && t.ports[p].rsem.count == 0)
  {
    var s1 := Step(s, EvClear(p, delete)).s;
    var s2 := Step(s1, EvClearSenders(p)).s;
    var s3 := Step(s2, EvClearReceivers(p)).s;
    var s4 := Step(s3, EvClearEnd(p)).s;
    assert s4.pend == Wake(Wake(s.pend, s.ports[p].ssem.queue), s.ports[p].rsem.queue);
    assert s4.free == Nodes(s.ports[p].items) + s.free;
    hide Step, Enabled, Wake;
    FourSteps(s, EvClear(p, delete), EvClearSenders(p), EvClearReceivers(p), EvClearEnd(p));
  }

  lemma FourSteps(s: State, a: Event, b: Event, c: Event, d: Event)
    requires |s.ports| == NPORTS && Enabled(s, a) && Goes(Step(s, a))
    requires var s1 := Step(s, a).s; |s1.ports| == NPORTS && Enabled(s1, b) && Goes(Step(s1, b))
    requires var s2 := Step(Step(s, a).s, b).s; |s2.ports| == NPORTS && Enabled(s2, c) && Goes(Step(s2, c))
    requires
      var s3 := Step(Step(Step(s, a).s, b).s, c).s;
      |s3.ports| == NPORTS && Enabled(s3, d) && Goes(Step(s3, d))
    ensures Path(s, [a, b, c, d]) && Run(s, [a, b, c, d]) == Step(Step(Step(Step(s, a).s, b).s, c).s, d).s
  {
    hide Step, Enabled;
    var s1 := Step(s, a).s;
    var s2 := Step(s1, b).s;
    var s3 := Step(s2, c).s;
    assert [a, b, c, d][1..] == [b, c, d] && [b, c, d][1..] == [c, d] && [c, d][1..] == [d] && [d][1..] == [];
    assert Path(s3, [d]) && Run(s3, [d]) == Step(s3, d).s;
    assert Path(s2, [c, d]) && Run(s2, [c, d]) == Run(s3, [d]);
    assert Path(s1, [b, c, d]) && Run(s1, [b, c, d]) == Run(s2, [c, d]);
  }
}
