/** queuetab: all process queues as doubly linked lists in one array, each between a head and a tail entry
    (system/queue.c, getitem.c, insert.c, insertd.c, newqueue.c, include/queue.h). */
module QueueTables {
  import opened KernelState
  import opened KernelSafety
  import opened Sequences

  const NQENT := NPROC + 4 + NSEM + NSEM
  const EMPTY := -1
  const SYSERR := -1
  const OK := 1
  const MAXKEY := 0x7FFF_FFFF
  const MINKEY := -0x8000_0000

  /** struct qentry */
  datatype QEntry = QEntry(qkey: int, qnext: int, qprev: int)

  /** The head and tail entries of the `j`-th queue. */
  function Head(j: int): int {
    NPROC + 2 * j
  }

  function Tail(j: int): int {
    NPROC + 2 * j + 1
  }

  /** Entry `i` of queue `j` with list `l`, counting the head as 0. */
  function NodeAt(j: int, l: seq<Pid>, i: int): int {
    if i <= 0 then Head(j) else if i <= |l| then l[i - 1] else Tail(j)
  }

  ghost predicate Joined(t: seq<QEntry>, a: int, b: int) {
    0 <= a < |t| && 0 <= b < |t| && t[a].qnext == b && t[b].qprev == a
  }

  ghost predicate LinkAt(t: seq<QEntry>, j: int, l: seq<Pid>, i: int) {
    Joined(t, NodeAt(j, l, i), NodeAt(j, l, i + 1))
  }

  /** Queue `j` is the doubly linked list `l`. */
  ghost predicate ListOK(t: seq<QEntry>, j: int, l: seq<Pid>) {
    && |t| == NQENT && 0 <= j && Tail(j) < NQENT
    && QueueOK(l)
    && (forall i :: 0 <= i <= |l| ==> LinkAt(t, j, l, i))
    && t[Head(j)].qprev == EMPTY && t[Tail(j)].qnext == EMPTY
    && t[Head(j)].qkey == MAXKEY && t[Tail(j)].qkey == MINKEY
  }

  ghost predicate NoneShared(l: seq<Pid>, m: seq<Pid>) {
    forall p :: p in l ==> p !in m
  }

  ghost predicate ApartAt(lists: seq<seq<Pid>>, i: int, j: int)
    requires 0 <= i < |lists| && 0 <= j < |lists|
  {
    i != j ==> NoneShared(lists[i], lists[j])
  }

  /** The table holds the queues `lists`, and no process is on two of them. */
  ghost predicate TableOK(t: seq<QEntry>, lists: seq<seq<Pid>>) {
    && |t| == NQENT && NPROC + 2 * |lists| <= NQENT
    && (forall j :: 0 <= j < |lists| ==> ListOK(t, j, lists[j]))
    && (forall i, j :: 0 <= i < |lists| && 0 <= j < |lists| ==> ApartAt(lists, i, j))
  }

  ghost predicate Unlisted(lists: seq<seq<Pid>>, p: Pid) {
    forall j :: 0 <= j < |lists| ==> p !in lists[j]
  }

  ghost predicate SameEntry(t: seq<QEntry>, t': seq<QEntry>, y: int) {
    0 <= y < |t| && |t'| == |t| && t'[y] == t[y]
  }

  lemma ListFrame(t: seq<QEntry>, t': seq<QEntry>, j: int, l: seq<Pid>)
    requires ListOK(t, j, l) && |t'| == |t|
    requires SameEntry(t, t', Head(j)) && SameEntry(t, t', Tail(j)) && forall y :: y in l ==> SameEntry(t, t', y)
    ensures ListOK(t', j, l)
  {
    forall i | 0 <= i <= |l| ensures LinkAt(t', j, l, i) {
      assert LinkAt(t, j, l, i);
      if i > 0 { assert l[i - 1] in l; }
      if i < |l| { assert l[i] in l; }
    }
  }

  lemma NodesDiffer(j: int, l: seq<Pid>, a: int, b: int)
    requires QueueOK(l) && 0 <= j && 0 <= a < b <= |l| + 1
    ensures NodeAt(j, l, a) != NodeAt(j, l, b)
  {
    if 0 < a && b <= |l| { assert Differ(l, a - 1, b - 1); }
  }

  /** The four assignments that link `x` in behind node `i`. */
  function LinkIn(t: seq<QEntry>, a: int, x: int, b: int, key: int): (r: seq<QEntry>)
    requires 0 <= a < |t| && 0 <= b < |t| && 0 <= x < |t|
    ensures |r| == |t|
  {
    var t1 := t[x := QEntry(key, b, a)];
    var t2 := t1[a := t1[a].(qnext := x)];
    t2[b := t2[b].(qprev := x)]
  }

  lemma LinkInOK(t: seq<QEntry>, j: int, l: seq<Pid>, i: int, x: Pid, key: int)
    requires ListOK(t, j, l) && 0 <= i <= |l| && x !in l && IsPid(x)
    ensures 0 <= NodeAt(j, l, i) < |t| && 0 <= NodeAt(j, l, i + 1) < |t|
    ensures ListOK(LinkIn(t, NodeAt(j, l, i), x, NodeAt(j, l, i + 1), key), j, InsertAt(l, i, x))
  {
    hide Differ;
    assert LinkAt(t, j, l, i);
    var a, b := NodeAt(j, l, i), NodeAt(j, l, i + 1);
    var t' := LinkIn(t, a, x, b, key);
    var l' := InsertAt(l, i, x);
    InsertAtOK(l, i, x);
    forall n | 0 <= n <= |l'| ensures LinkAt(t', j, l', n) {
      NewNodes(j, l, i, x, n);
      NewNodes(j, l, i, x, n + 1);
      if n < i {
        assert LinkAt(t, j, l, n);
        NodesDiffer(j, l, n, i);
        if n + 1 < i { NodesDiffer(j, l, n + 1, i + 1); } else { NodesDiffer(j, l, i, i + 1); }
      } else if n > i + 1 {
        assert LinkAt(t, j, l, n - 1);
        NodesDiffer(j, l, i, n - 1);
        NodesDiffer(j, l, i + 1, n);
      } else {
        NodesDiffer(j, l, i, i + 1);
      }
    }
    assert NodeAt(j, l, i) == Head(j) || NodeAt(j, l, i) in l;
    assert NodeAt(j, l, i + 1) == Tail(j) || NodeAt(j, l, i + 1) in l;
  }

  lemma NewNodes(j: int, l: seq<Pid>, i: int, x: Pid, n: int)
    requires 0 <= i <= |l| && 0 <= n <= |l| + 2
    ensures NodeAt(j, InsertAt(l, i, x), n) == if n <= i then NodeAt(j, l, n) else if n == i + 1 then x
              else NodeAt(j, l, n - 1)
  {
  }

  /** getitem: the two assignments that unlink the node between `a` and `b`. */
  function LinkPast(t: seq<QEntry>, a: int, b: int): (r: seq<QEntry>)
    requires 0 <= a < |t| && 0 <= b < |t|
    ensures |r| == |t|
  {
    var t1 := t[a := t[a].(qnext := b)];
    t1[b := t1[b].(qprev := a)]
  }

  function Drop(l: seq<Pid>, i: int): seq<Pid>
    requires 0 <= i < |l|
  {
    l[..i] + l[i + 1..]
  }

  lemma DropOK(l: seq<Pid>, i: int)
    requires QueueOK(l) && 0 <= i < |l|
    ensures QueueOK(Drop(l, i)) && l[i] !in Drop(l, i) && forall y :: y in Drop(l, i) ==> y in l
    ensures Drop(l, i) == Without(l, l[i])
  {
    var r := Drop(l, i);
    forall a | 0 <= a < |r| ensures r[a] == l[if a < i then a else a + 1] { }
    forall a, b | 0 <= a < b < |r| ensures Differ(r, a, b) {
      assert Differ(l, if a < i then a else a + 1, if b < i then b else b + 1);
    }
    forall a | 0 <= a < |r| ensures r[a] != l[i] {
      if a < i { assert Differ(l, a, i); } else { assert Differ(l, i, a + 1); }
    }
    DropIsWithout(l, i);
  }

  lemma {:induction false} DropIsWithout(l: seq<Pid>, i: int)
    requires QueueOK(l) && 0 <= i < |l|
    ensures Drop(l, i) == Without(l, l[i])
  {
    if i > 0 {
      assert Differ(l, 0, i);
      TailOK(l);
      DropIsWithout(l[1..], i - 1);
      assert Drop(l, i) == [l[0]] + Drop(l[1..], i - 1);
    }
  }

  lemma OldNodes(j: int, l: seq<Pid>, i: int, n: int)
    requires 0 <= i < |l| && 0 <= n <= |l|
    ensures NodeAt(j, Drop(l, i), n) == if n <= i then NodeAt(j, l, n) else NodeAt(j, l, n + 1)
  {
  }

  lemma LinkPastOK(t: seq<QEntry>, j: int, l: seq<Pid>, i: int)
    requires ListOK(t, j, l) && 0 <= i < |l|
    ensures 0 <= NodeAt(j, l, i) < |t| && 0 <= NodeAt(j, l, i + 2) < |t| && 0 <= l[i] < |t|
    ensures t[l[i]].qnext == NodeAt(j, l, i + 2) && t[l[i]].qprev == NodeAt(j, l, i)
    ensures ListOK(LinkPast(t, NodeAt(j, l, i), NodeAt(j, l, i + 2)), j, Drop(l, i))
  {
    assert LinkAt(t, j, l, i) && LinkAt(t, j, l, i + 1);
    var a, b := NodeAt(j, l, i), NodeAt(j, l, i + 2);
    var t' := LinkPast(t, a, b);
    var l' := Drop(l, i);
    DropOK(l, i);
    forall n | 0 <= n <= |l'| ensures LinkAt(t', j, l', n) {
      OldNodes(j, l, i, n);
      OldNodes(j, l, i, n + 1);
      NodesDiffer(j, l, i, i + 2);
      if n < i {
        assert LinkAt(t, j, l, n);
        NodesDiffer(j, l, n, i);
        NodesDiffer(j, l, n + 1, i + 2);
      } else if n > i {
        assert LinkAt(t, j, l, n + 1);
        NodesDiffer(j, l, i, n + 1);
        NodesDiffer(j, l, i + 2, n + 2);
      }
    }
    assert a == Head(j) || a in l;
    assert b == Tail(j) || b in l;
  }

  /** What the edit of one queue does to the table. */
  lemma TableInsert(t: seq<QEntry>, lists: seq<seq<Pid>>, j: int, i: int, x: Pid, key: int)
    requires TableOK(t, lists) && 0 <= j < |lists| && 0 <= i <= |lists[j]| && IsPid(x) && Unlisted(lists, x)
    ensures 0 <= NodeAt(j, lists[j], i) < |t| && 0 <= NodeAt(j, lists[j], i + 1) < |t|
    ensures TableOK(LinkIn(t, NodeAt(j, lists[j], i), x, NodeAt(j, lists[j], i + 1), key),
              lists[j := InsertAt(lists[j], i, x)])
  {
    hide ListOK, QueueOK;
    var l := lists[j];
    assert ListOK(t, j, l);
    LinkInOK(t, j, l, i, x, key);
    var a, b := NodeAt(j, l, i), NodeAt(j, l, i + 1);
    var t' := LinkIn(t, a, x, b, key);
    var lists' := lists[j := InsertAt(l, i, x)];
    forall n | 0 <= n < |lists'| ensures ListOK(t', n, lists'[n]) {
      if n != j {
        assert ApartAt(lists, j, n) && ListOK(t, n, lists[n]);
        NodesElsewhere(t, j, l, i, n, lists[n]);
        NodesElsewhere(t, j, l, i + 1, n, lists[n]);
        ListRange(t, n, lists[n]);
        ListFrame(t, t', n, lists[n]);
      }
    }
    forall n, m | 0 <= n < |lists'| && 0 <= m < |lists'| ensures ApartAt(lists', n, m) {
      assert ApartAt(lists, n, m);
      forall p | p in lists'[n] && n != m ensures p !in lists'[m] {
        if n == j { InsertAtIn(l, i, x, p); }
        if m == j { InsertAtIn(l, i, x, p); }
      }
    }
  }

  lemma ListRange(t: seq<QEntry>, j: int, l: seq<Pid>)
    requires ListOK(t, j, l)
    ensures |t| == NQENT && NPROC <= Head(j) && Tail(j) < NQENT && QueueOK(l) && forall y :: y in l ==> 0 <= y < NPROC
  {
  }

  /** No node of one queue is a node of another. */
  lemma NodesElsewhere(t: seq<QEntry>, j: int, l: seq<Pid>, i: int, n: int, m: seq<Pid>)
    requires ListOK(t, j, l) && ListOK(t, n, m) && n != j && NoneShared(l, m) && 0 <= i <= |l| + 1
    ensures NodeAt(j, l, i) != Head(n) && NodeAt(j, l, i) != Tail(n) && NodeAt(j, l, i) !in m
  {
    if 0 < i <= |l| { assert l[i - 1] in l; }
  }

  lemma TableDrop(t: seq<QEntry>, lists: seq<seq<Pid>>, j: int, i: int)
    requires TableOK(t, lists) && 0 <= j < |lists| && 0 <= i < |lists[j]|
    ensures 0 <= NodeAt(j, lists[j], i) < |t| && 0 <= NodeAt(j, lists[j], i + 2) < |t| && 0 <= lists[j][i] < NPROC
    ensures t[lists[j][i]].qnext == NodeAt(j, lists[j], i + 2) && t[lists[j][i]].qprev == NodeAt(j, lists[j], i)
    ensures TableOK(LinkPast(t, NodeAt(j, lists[j], i), NodeAt(j, lists[j], i + 2)), lists[j := Drop(lists[j], i)])
    ensures Unlisted(lists[j := Drop(lists[j], i)], lists[j][i])
  {
    hide ListOK, QueueOK;
    var l := lists[j];
    assert ListOK(t, j, l);
    ListRange(t, j, l);
    LinkPastOK(t, j, l, i);
    DropOK(l, i);
    var t' := LinkPast(t, NodeAt(j, l, i), NodeAt(j, l, i + 2));
    var lists' := lists[j := Drop(l, i)];
    forall n | 0 <= n < |lists'| ensures ListOK(t', n, lists'[n]) && l[i] !in lists'[n] {
      if n != j {
        assert ApartAt(lists, j, n) && ListOK(t, n, lists[n]);
        NodesElsewhere(t, j, l, i, n, lists[n]);
        NodesElsewhere(t, j, l, i + 2, n, lists[n]);
        ListRange(t, n, lists[n]);
        ListFrame(t, t', n, lists[n]);
        assert l[i] in l;
      }
    }
    forall n, m | 0 <= n < |lists'| && 0 <= m < |lists'| ensures ApartAt(lists', n, m) { assert ApartAt(lists, n, m); }
  }

  lemma NodesLinked(t: seq<QEntry>, lists: seq<seq<Pid>>, j: int, i: int)
    requires TableOK(t, lists) && 0 <= j < |lists| && 0 <= i <= |lists[j]|
    ensures 0 <= NodeAt(j, lists[j], i) < |t| && 0 <= NodeAt(j, lists[j], i + 1) < |t|
    ensures t[NodeAt(j, lists[j], i)].qnext == NodeAt(j, lists[j], i + 1)
              && t[NodeAt(j, lists[j], i + 1)].qprev == NodeAt(j, lists[j], i)
    ensures t[Tail(j)].qkey == MINKEY && NPROC <= Head(j) && Tail(j) < NQENT && |t| == NQENT
    ensures i < |lists[j]| ==> 0 <= lists[j][i] < NPROC
  {
    assert ListOK(t, j, lists[j]) && LinkAt(t, j, lists[j], i);
  }

  /** Links and keys of processes that are on no queue do not matter, nor do the keys of those that are. */
  lemma TableElsewhere(t: seq<QEntry>, lists: seq<seq<Pid>>, x: Pid, e: QEntry)
    requires TableOK(t, lists) && IsPid(x) && (Unlisted(lists, x) || e == t[x].(qkey := e.qkey))
    ensures TableOK(t[x := e], lists)
  {
    hide QueueOK;
    var t' := t[x := e];
    forall j | 0 <= j < |lists| ensures ListOK(t', j, lists[j]) {
      var l := lists[j];
      assert ListOK(t, j, l);
      forall i | 0 <= i <= |l| ensures LinkAt(t', j, l, i) {
        assert LinkAt(t, j, l, i);
        if i > 0 { assert l[i - 1] in l; }
        if i < |l| { assert l[i] in l; }
      }
    }
  }

  ghost predicate KeyKept(t: seq<QEntry>, t': seq<QEntry>, y: int) {
    0 <= y < |t| && |t'| == |t| ==> t'[y].qkey == t[y].qkey
  }

  ghost predicate KeysBut(t: seq<QEntry>, t': seq<QEntry>, x: int) {
    |t'| == |t| && forall y :: y != x ==> KeyKept(t, t', y)
  }

  /** insert: the position behind all entries of at least this key. */
  function KeyPos(t: seq<QEntry>, l: seq<Pid>, key: int): (i: int)
    requires |t| == NQENT
    ensures 0 <= i <= |l|
  {
    if l == [] || !IsPid(l[0]) || t[l[0]].qkey < key then 0 else 1 + KeyPos(t, l[1..], key)
  }

  lemma {:induction false} KeyPosIs(t: seq<QEntry>, l: seq<Pid>, key: int, i: int)
    requires |t| == NQENT && 0 <= i <= |l| && (forall k :: 0 <= k < |l| ==> IsPid(l[k]))
    requires forall k :: 0 <= k < i ==> IsPid(l[k]) && t[l[k]].qkey >= key
    requires i < |l| ==> IsPid(l[i]) && t[l[i]].qkey < key
    ensures KeyPos(t, l, key) == i
  {
    if i > 0 { KeyPosIs(t, l[1..], key, i - 1); }
  }

  /** The sleep queue as it stands in the table. */
  function Sleepers(t: seq<QEntry>, l: seq<Pid>): (r: seq<Sleeper>)
    requires |t| == NQENT
    ensures |r| == |l|
  {
    seq(|l|, i requires 0 <= i < |l| => Sleeper(l[i], if IsPid(l[i]) then t[l[i]].qkey else 0))
  }

  class QueueTable {
    const queuetab: array<QEntry>
    /** proctab, for isbadpid */
    const proctab: array<Proc>
    /** The static variable of newqueue. */
    var nextqid: int
    ghost var lists: seq<seq<Pid>>

    ghost predicate Valid()
      reads this, queuetab
    {
      && queuetab.Length == NQENT && proctab.Length == NPROC
      && TableOK(queuetab[..], lists) && nextqid == NPROC + 2 * |lists|
    }

    /** A queue that newqueue returned. */
    ghost predicate IsQueue(q: int)
      reads this
    {
      NPROC <= q < nextqid && (q - NPROC) % 2 == 0
    }

    predicate IsBadPid(pid: Pid)
      requires proctab.Length == NPROC
      reads proctab
    {
      pid < 0 || pid >= NPROC || proctab[pid].state == FREE
    }

    static predicate IsBadQid(q: int) {
      q < NPROC || q >= NQENT - 1
    }

    constructor (proctab: array<Proc>)
      requires proctab.Length == NPROC
      ensures Valid() && lists == [] && this.proctab == proctab && fresh(queuetab)
    {
      queuetab := new QEntry[NQENT](_ => QEntry(0, 0, 0));
      this.proctab := proctab;
      nextqid := NPROC;
      lists := [];
    }

    method NewQueue() returns (q: int)
      requires Valid()
      modifies this, queuetab
      ensures Valid()
      ensures old(nextqid) >= NQENT ==> q == SYSERR && lists == old(lists) && queuetab[..] == old(queuetab[..])
      ensures old(nextqid) < NQENT ==> q == old(nextqid) && IsQueue(q) && lists == old(lists) + [[]]
      ensures forall y :: 0 <= y < NPROC ==> queuetab[y] == old(queuetab[y])
    {
      q := nextqid;
      if q >= NQENT {
        return SYSERR;
      }
      nextqid := nextqid + 2;
      ghost var t := queuetab[..];
      queuetab[q] := QEntry(MAXKEY, q + 1, EMPTY);
      queuetab[q + 1] := QEntry(MINKEY, EMPTY, q);
      TableMore(t, lists, queuetab[..]);
      lists := lists + [[]];
    }

    method Enqueue(pid: Pid, q: int) returns (r: int)
      requires Valid() && (!IsBadQid(q) && !IsBadPid(pid) ==> IsQueue(q) && Unlisted(lists, pid))
      modifies this`lists, queuetab
      ensures Valid()
      ensures IsBadQid(q) || IsBadPid(pid) ==> r == SYSERR && lists == old(lists) && queuetab[..] == old(queuetab[..])
      ensures !IsBadQid(q) && !IsBadPid(pid) ==>
                r == pid && lists == old(lists)[(q - NPROC) / 2 := old(lists)[(q - NPROC) / 2] + [pid]]
                && KeysBut(old(queuetab[..]), queuetab[..], EMPTY)
    {
      hide TableOK;
      if IsBadQid(q) || IsBadPid(pid) {
        return SYSERR;
      }
      ghost var j := (q - NPROC) / 2;
      ghost var l := lists[j];
      ghost var t := queuetab[..];
      NodesLinked(t, lists, j, |l|);
      TableInsert(t, lists, j, |l|, pid, t[pid].qkey);
      var tail := q + 1;
      var prev := queuetab[tail].qprev;
      queuetab[pid] := queuetab[pid].(qnext := tail);
      queuetab[pid] := queuetab[pid].(qprev := prev);
      queuetab[prev] := queuetab[prev].(qnext := pid);
      queuetab[tail] := queuetab[tail].(qprev := pid);
      assert queuetab[..] == LinkIn(t, prev, pid, tail, t[pid].qkey);
      assert InsertAt(l, |l|, pid) == l + [pid];
      lists := lists[j := l + [pid]];
      r := pid;
    }

    method Getitem(pid: Pid, ghost j: int, ghost i: int) returns (r: int)
      requires Valid() && 0 <= j < |lists| && 0 <= i < |lists[j]| && lists[j][i] == pid
      modifies this`lists, queuetab
      ensures Valid() && r == pid && lists == old(lists)[j := Drop(old(lists)[j], i)] && Unlisted(lists, pid)
      ensures KeysBut(old(queuetab[..]), queuetab[..], EMPTY)
    {
      hide TableOK, Drop, Unlisted;
      ghost var t := queuetab[..];
      TableDrop(t, lists, j, i);
      TableSize(t, lists);
      var next := queuetab[pid].qnext;
      var prev := queuetab[pid].qprev;
      queuetab[prev] := queuetab[prev].(qnext := next);
      queuetab[next] := queuetab[next].(qprev := prev);
      assert queuetab[..] == LinkPast(t, prev, next);
      lists := lists[j := Drop(lists[j], i)];
      r := pid;
    }

    method Getfirst(q: int) returns (r: int)
      requires Valid() && IsQueue(q)
      modifies this`lists, queuetab
      ensures Valid() && KeysBut(old(queuetab[..]), queuetab[..], EMPTY)
      ensures
        var j := (q - NPROC) / 2;
        var l := old(lists)[j];
        if l == [] then r == EMPTY && lists == old(lists)
        else r == l[0] && IsPid(r) && lists == old(lists)[j := l[1..]] && Unlisted(lists, r)
    {
      hide TableOK, Unlisted;
      ghost var j := (q - NPROC) / 2;
      NodesLinked(queuetab[..], lists, j, 0);
      if queuetab[q].qnext >= NPROC {
        return EMPTY;
      }
      assert Drop(lists[j], 0) == lists[j][1..];
      r := Getitem(queuetab[q].qnext, j, 0);
    }

    method Getlast(q: int) returns (r: int)
      requires Valid() && IsQueue(q)
      modifies this`lists, queuetab
      ensures Valid() && KeysBut(old(queuetab[..]), queuetab[..], EMPTY)
      ensures
        var j := (q - NPROC) / 2;
        var l := old(lists)[j];
        if l == [] then r == EMPTY && lists == old(lists)
        else r == l[|l| - 1] && IsPid(r) && lists == old(lists)[j := l[..|l| - 1]] && Unlisted(lists, r)
    {
      hide TableOK, Unlisted;
      ghost var j := (q - NPROC) / 2;
      NodesLinked(queuetab[..], lists, j, 0);
      NodesLinked(queuetab[..], lists, j, |lists[j]|);
      if queuetab[q].qnext >= NPROC {
        return EMPTY;
      }
      var tail := q + 1;
      NodesLinked(queuetab[..], lists, j, |lists[j]| - 1);
      assert Drop(lists[j], |lists[j]| - 1) == lists[j][..|lists[j]| - 1];
      r := Getitem(queuetab[tail].qprev, j, |lists[j]| - 1);
    }

    method Dequeue(q: int) returns (r: int)
      requires Valid() && (!IsBadQid(q) ==> IsQueue(q))
      modifies this`lists, queuetab
      ensures Valid() && KeysBut(old(queuetab[..]), queuetab[..], EMPTY)
      ensures IsBadQid(q) ==> r == SYSERR && lists == old(lists)
      ensures !IsBadQid(q) ==>
                var j := (q - NPROC) / 2;
                var l := old(lists)[j];
                if l == [] then r == EMPTY && lists == old(lists)
                else r == l[0] && IsPid(r) && lists == old(lists)[j := l[1..]] && Unlisted(lists, r)
    {
      hide TableOK, Unlisted;
      if IsBadQid(q) {
        return SYSERR;
      }
      NodesLinked(queuetab[..], lists, (q - NPROC) / 2, 0);
      if queuetab[q].qnext >= NPROC {
        return EMPTY;
      }
      r := Getfirst(q);
      ghost var t := queuetab[..];
      TableElsewhere(t, lists, r, t[r].(qprev := EMPTY, qnext := EMPTY));
      queuetab[r] := queuetab[r].(qprev := EMPTY);
      queuetab[r] := queuetab[r].(qnext := EMPTY);
      assert queuetab[..] == t[r := t[r].(qprev := EMPTY, qnext := EMPTY)];
      forall y ensures KeyKept(old(queuetab[..]), queuetab[..], y) { assert KeyKept(old(queuetab[..]), t, y); }
    }

    /** The assignments of insert.c:29-34 and insertd.c:32-36. */
    method LinkBetween(prev: int, pid: Pid, next: int, key: int, ghost j: int, ghost i: int)
      requires Valid() && IsPid(pid) && Unlisted(lists, pid) && 0 <= j < |lists| && 0 <= i <= |lists[j]|
      requires prev == NodeAt(j, lists[j], i) && next == NodeAt(j, lists[j], i + 1)
      modifies this`lists, queuetab
      ensures Valid() && lists == old(lists)[j := InsertAt(old(lists)[j], i, pid)]
      ensures 0 <= prev < NQENT && 0 <= next < NQENT && queuetab[..] == LinkIn(old(queuetab[..]), prev, pid, next, key)
    {
      hide TableOK, Unlisted, InsertAt;
      ghost var t := queuetab[..];
      TableInsert(t, lists, j, i, pid, key);
      queuetab[pid] := queuetab[pid].(qnext := next);
      queuetab[pid] := queuetab[pid].(qprev := prev);
      queuetab[pid] := queuetab[pid].(qkey := key);
      queuetab[prev] := queuetab[prev].(qnext := pid);
      queuetab[next] := queuetab[next].(qprev := pid);
      assert queuetab[..] == LinkIn(t, prev, pid, next, key);
      lists := lists[j := InsertAt(lists[j], i, pid)];
    }

    /** The search of insert.c:22-25. */
    method FindKey(q: int, key: int) returns (curr: int, ghost i: int)
      requires Valid() && IsQueue(q) && key > MINKEY
      ensures var j := (q - NPROC) / 2;
              i == KeyPos(queuetab[..], lists[j], key) && curr == NodeAt(j, lists[j], i + 1) && 0 <= curr < NQENT
    {
      hide TableOK;
      ghost var j := (q - NPROC) / 2;
      ghost var l := lists[j];
      ghost var t := queuetab[..];
      i := 0;
      NodesLinked(t, lists, j, 0);
      curr := queuetab[q].qnext;
      while queuetab[curr].qkey >= key
        invariant 0 <= i <= |l| && curr == NodeAt(j, l, i + 1) && 0 <= curr < NQENT
        invariant forall k :: 0 <= k < i ==> IsPid(l[k]) && t[l[k]].qkey >= key
        decreases |l| - i
      {
        NodesLinked(t, lists, j, i);
        NodesLinked(t, lists, j, i + 1);
        curr := queuetab[curr].qnext;
        i := i + 1;
      }
      NodesLinked(t, lists, j, i);
      MembersArePids(t, lists, j);
      KeyPosIs(t, l, key, i);
    }

    method Insert(pid: Pid, q: int, key: int) returns (r: int)
      requires Valid() && (!IsBadQid(q) && !IsBadPid(pid) ==> IsQueue(q) && Unlisted(lists, pid) && key > MINKEY)
      modifies this`lists, queuetab
      ensures Valid()
      ensures IsBadQid(q) || IsBadPid(pid) ==> r == SYSERR && lists == old(lists) && queuetab[..] == old(queuetab[..])
      ensures !IsBadQid(q) && !IsBadPid(pid) ==>
                var j := (q - NPROC) / 2;
                var l := old(lists)[j];
                && r == OK && lists == old(lists)[j := InsertAt(l, KeyPos(old(queuetab[..]), l, key), pid)]
                && queuetab[pid].qkey == key && KeysBut(old(queuetab[..]), queuetab[..], pid)
    {
      hide TableOK, Unlisted, InsertAt;
      if IsBadQid(q) || IsBadPid(pid) {
        return SYSERR;
      }
      ghost var j := (q - NPROC) / 2;
      var curr;
      ghost var i;
      curr, i := FindKey(q, key);
      NodesLinked(queuetab[..], lists, j, i);
      var prev := queuetab[curr].qprev;
      LinkBetween(prev, pid, curr, key, j, i);
      r := OK;
    }

    /** The search of insertd.c:22-28; `left` is what remains of the delay. */
    method FindDelay(q: int, key: int, ghost pid: Pid) returns (prev: int, next: int, left: int, ghost i: int)
      requires Valid() && IsQueue(q)
      ensures
        var j := (q - NPROC) / 2;
        var l := lists[j];
        var d := Sleepers(queuetab[..], l);
        && 0 <= i <= |l| && prev == NodeAt(j, l, i) && next == NodeAt(j, l, i + 1)
        && (i < |l| ==> IsPid(l[i]) && queuetab[l[i]].qkey > left)
        && KernelState.InsertD(d, pid, key) == d[..i] + KernelState.InsertD(d[i..], pid, left)
    {
      hide TableOK, Sleepers, KernelState.InsertD;
      ghost var j := (q - NPROC) / 2;
      ghost var l := lists[j];
      ghost var t := queuetab[..];
      i := 0;
      left := key;
      NodesLinked(t, lists, j, 0);
      prev := q;
      next := queuetab[q].qnext;
      MembersArePids(t, lists, j);
      assert Sleepers(t, l)[..0] == [] && Sleepers(t, l)[0..] == Sleepers(t, l);
      while next != q + 1 && queuetab[next].qkey <= left
        invariant 0 <= i <= |l| && prev == NodeAt(j, l, i) && next == NodeAt(j, l, i + 1) && 0 <= next < NQENT
        invariant KernelState.InsertD(Sleepers(t, l), pid, key) == Sleepers(t, l)[..i]
                    + KernelState.InsertD(Sleepers(t, l)[i..], pid, left)
        decreases |l| - i
      {
        NodesLinked(t, lists, j, i);
        NodesLinked(t, lists, j, i + 1);
        DelayStep(t, l, i, pid, left);
        left := left - queuetab[next].qkey;
        prev := next;
        next := queuetab[next].qnext;
        i := i + 1;
      }
      NodesLinked(t, lists, j, i);
    }

    method InsertD(pid: Pid, q: int, key: int) returns (r: int)
      requires Valid() && (!IsBadQid(q) && !IsBadPid(pid) ==> IsQueue(q) && Unlisted(lists, pid))
      modifies this`lists, queuetab
      ensures Valid()
      ensures IsBadQid(q) || IsBadPid(pid) ==> r == SYSERR && lists == old(lists) && queuetab[..] == old(queuetab[..])
      ensures !IsBadQid(q) && !IsBadPid(pid) ==>
                var j := (q - NPROC) / 2;
                var l := old(lists)[j];
                && r == OK && |lists| == |old(lists)| && lists == old(lists)[j := lists[j]]
                && Sleepers(queuetab[..], lists[j]) == KernelState.InsertD(Sleepers(old(queuetab[..]), l), pid, key)
                && forall y :: y != pid && y !in l ==> KeyKept(old(queuetab[..]), queuetab[..], y)
    {
      hide TableOK, InsertAt, Sleepers, KernelState.InsertD, KeyKept;
      if IsBadQid(q) || IsBadPid(pid) {
        return SYSERR;
      }
      ghost var j := (q - NPROC) / 2;
      ghost var l := lists[j];
      ghost var t := queuetab[..];
      MembersArePids(t, lists, j);
      var prev, next, left;
      ghost var i;
      prev, next, left, i := FindDelay(q, key, pid);
      LinkBetween(prev, pid, next, left, j, i);
      ghost var t1 := queuetab[..];
      if next != q + 1 {
        TableElsewhere(t1, lists, next, t1[next].(qkey := t1[next].qkey - left));
        queuetab[next] := queuetab[next].(qkey := queuetab[next].qkey - left);
        assert queuetab[..] == t1[next := t1[next].(qkey := t1[next].qkey - left)];
      }
      DelayDone(t, queuetab[..], lists, j, l, i, pid, left);
      r := OK;
    }
  }

  lemma TableSize(t: seq<QEntry>, lists: seq<seq<Pid>>)
    requires TableOK(t, lists)
    ensures |t| == NQENT
  {
  }

  /** A new empty queue behind the others. */
  lemma TableMore(t: seq<QEntry>, lists: seq<seq<Pid>>, t': seq<QEntry>)
    requires TableOK(t, lists) && NPROC + 2 * |lists| < NQENT
    requires t' == t[Head(|lists|) := QEntry(MAXKEY, Tail(|lists|), EMPTY)][Tail(|lists|) :=
              QEntry(MINKEY, EMPTY, Head(|lists|))]
    ensures TableOK(t', lists + [[]])
  {
    hide ListOK;
    var lists' := lists + [[]];
    forall n | 0 <= n < |lists'| ensures ListOK(t', n, lists'[n]) {
      if n < |lists| {
        assert ListOK(t, n, lists[n]);
        ListRange(t, n, lists[n]);
        ListFrame(t, t', n, lists[n]);
      } else {
        EmptyList(t', n);
      }
    }
    forall n, m | 0 <= n < |lists'| && 0 <= m < |lists'| ensures ApartAt(lists', n, m) {
      if n < |lists| && m < |lists| { assert ApartAt(lists, n, m); }
    }
  }

  lemma EmptyList(t: seq<QEntry>, j: int)
    requires |t| == NQENT && 0 <= j && Tail(j) < NQENT
    requires t[Head(j)] == QEntry(MAXKEY, Tail(j), EMPTY) && t[Tail(j)] == QEntry(MINKEY, EMPTY, Head(j))
    ensures ListOK(t, j, [])
  {
    assert LinkAt(t, j, [], 0);
  }

  lemma MembersArePids(t: seq<QEntry>, lists: seq<seq<Pid>>, j: int)
    requires TableOK(t, lists) && 0 <= j < |lists|
    ensures forall k :: 0 <= k < |lists[j]| ==> IsPid(lists[j][k])
    ensures QueueOK(lists[j])
  {
    assert ListOK(t, j, lists[j]);
  }

  lemma DelayStep(t: seq<QEntry>, l: seq<Pid>, i: int, p: Pid, key: int)
    requires |t| == NQENT && 0 <= i < |l| && IsPid(l[i]) && t[l[i]].qkey <= key
    ensures
      var q := Sleepers(t, l);
      q[..i] + KernelState.InsertD(q[i..], p, key) == q[..i + 1]
          + KernelState.InsertD(q[i + 1..], p, key - t[l[i]].qkey)
  {
    var q := Sleepers(t, l);
    assert q[i..][1..] == q[i + 1..];
    assert q[..i + 1] == q[..i] + [q[i]];
  }

  /** The table after insertd holds the sleep queue that InsertD says. */
  lemma DelayDone(t: seq<QEntry>, t': seq<QEntry>, lists: seq<seq<Pid>>, j: int, l: seq<Pid>, i: int, p: Pid, key: int)
    requires |t| == NQENT == |t'| && 0 <= i <= |l| && IsPid(p) && p !in l && QueueOK(l) && 0 <= j < |lists|
              && lists[j] == InsertAt(l, i, p)
    requires i < |l| ==> t[l[i]].qkey > key
    requires forall y :: 0 <= y < NQENT ==>
              t'[y].qkey == if y == p then key else if i < |l| && y == l[i] then t[y].qkey - key else t[y].qkey
    ensures
      var q := Sleepers(t, l);
      Sleepers(t', lists[j]) == q[..i] + KernelState.InsertD(q[i..], p, key)
    ensures forall y :: y != p && y !in l ==> KeyKept(t, t', y)
  {
    var q := Sleepers(t, l);
    var r := q[..i] + KernelState.InsertD(q[i..], p, key);
    var q' := Sleepers(t', lists[j]);
    forall k | 0 <= k < |l| ensures k != i ==> (i < |l| ==> l[k] != l[i]) {
      if k < i && i < |l| { assert Differ(l, k, i); }
      if i < k { assert Differ(l, i, k); }
    }
    assert |r| == |q'|;
    forall k | 0 <= k < |q'| ensures q'[k] == r[k] {
      if k < i {
        assert lists[j][k] == l[k];
      } else if k > i {
        assert lists[j][k] == l[k - 1];
      }
    }
  }
}
