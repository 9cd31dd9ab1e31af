/** The compiled allocator keeps a list of the blocks each process has in use (system/getmem.c,
    system/meminsert.c, system/memextract.c, system/freemem.c).  Its nodes come from the same heap. */
module HeapTracking {
  import opened FreeLists
  import opened HeapLinks
  import opened Sequences

  /** struct inusememblk: the address of the node, and the block it stands for. */
  datatype Entry = Entry(node: int, ptr: int, len: int)

  /** sizeof(struct inusememblk), and the size of the block that holds one */
  const NODESIZE := 12
  const NODELEN := 16

  function BlockOf(e: Entry): Block {
    Block(e.ptr, e.len)
  }

  /** The heap, the list of each process, and the blocks that were ever allocated for nodes. */
  datatype Tracked = Tracked(heap: State, lists: seq<seq<Entry>>, nodes: seq<Block>)

  // ---------- What allocation and release do ----------

  /** Both the block and its node can be had. */
  predicate Grants(free: seq<Block>, nbytes: int) {
    var g := GetMem(free, nbytes);
    g.Granted? && GetMem(g.rest, NODESIZE).Granted?
  }

  function Alloc(t: Tracked, p: int, nbytes: int): Tracked
    requires 0 <= p < |t.lists| && Grants(t.heap.free, nbytes)
  {
    var g := GetMem(t.heap.free, nbytes);
    var h := GetMem(g.rest, NODESIZE);
    Tracked(State(h.rest, t.heap.out + [g.block] + [h.block]),
            t.lists[p := [Entry(h.block.addr, g.block.addr, g.block.len)] + t.lists[p]],
            t.nodes + [h.block])
  }

  /** The lists without entry `k` of process `p`. */
  function WithoutEntry(lists: seq<seq<Entry>>, p: int, k: int): seq<seq<Entry>>
    requires 0 <= p < |lists| && 0 <= k < |lists[p]|
  {
    lists[p := lists[p][..k] + lists[p][k + 1..]]
  }

  /** Entry `k` of the list of `p` is taken off, and its block released; the node is not. */
  function Dispose(t: Tracked, p: int, k: int, lo: int, hi: int): Tracked
    requires 0 <= p < |t.lists| && 0 <= k < |t.lists[p]| && BlockOf(t.lists[p][k]) in t.heap.out
  {
    Tracked(Step(t.heap, CallFree(IndexOf(t.heap.out, BlockOf(t.lists[p][k]))), lo, hi),
            WithoutEntry(t.lists, p, k), t.nodes)
  }

  /** The first entry for the block at `ptr`, or the length of the list. */
  function Found(list: seq<Entry>, ptr: int): (k: int)
    ensures 0 <= k <= |list| && (k < |list| ==> list[k].ptr == ptr)
    ensures forall j :: 0 <= j < k ==> list[j].ptr != ptr
  {
    if list == [] || list[0].ptr == ptr then 0
    else
      var k := Found(list[1..], ptr);
      assert forall j :: 1 <= j < k + 1 ==> list[j] == list[1..][j - 1];
      k + 1
  }

  /** The free list after an attempt to release. */
  function Tried(free: seq<Block>, r: Release): seq<Block> {
    if r.Released? then r.free else free
  }

  /** freemem with the size `nbytes` for entry `k` of the list of `p`: the entry goes whatever the size, and whether
      the release fails or not. */
  function Unlisted(t: Tracked, p: int, k: int, nbytes: int, lo: int, hi: int): Tracked
    requires 0 <= p < |t.lists| && 0 <= k < |t.lists[p]| && BlockOf(t.lists[p][k]) in t.heap.out
  {
    var b := BlockOf(t.lists[p][k]);
    var m := IndexOf(t.heap.out, b);
    Tracked(State(Tried(t.heap.free, FreeMem(t.heap.free, b.addr, nbytes, lo, hi)),
                  t.heap.out[..m] + t.heap.out[m + 1..]),
            WithoutEntry(t.lists, p, k), t.nodes)
  }

  // ---------- What every run keeps ----------

  ghost predicate Listed(lists: seq<seq<Entry>>, b: Block) {
    exists p, i :: 0 <= p < |lists| && 0 <= i < |lists[p]| && BlockOf(lists[p][i]) == b
  }

  ghost predicate OutIff(t: Tracked, b: Block) {
    b in t.heap.out <==> Listed(t.lists, b) || b in t.nodes
  }

  ghost predicate EntryOK(t: Tracked, p: int, i: int)
    requires 0 <= p < |t.lists| && 0 <= i < |t.lists[p]|
  {
    var e := t.lists[p][i];
    BlockOf(e) in t.heap.out && BlockOf(e) !in t.nodes && Block(e.node, NODELEN) in t.nodes
  }

  ghost predicate Distinct(lists: seq<seq<Entry>>, p: int, i: int, q: int, j: int)
    requires 0 <= p < |lists| && 0 <= i < |lists[p]| && 0 <= q < |lists| && 0 <= j < |lists[q]|
  {
    (p != q || i != j) ==> lists[p][i].node != lists[q][j].node && lists[p][i].ptr != lists[q][j].ptr
  }

  ghost predicate AllDistinct(lists: seq<seq<Entry>>) {
    forall p, i, q, j :: 0 <= p < |lists| && 0 <= i < |lists[p]| && 0 <= q < |lists| && 0 <= j < |lists[q]| ==>
        Distinct(lists, p, i, q, j)
  }

  ghost predicate NodeLen(nodes: seq<Block>, k: int)
    requires 0 <= k < |nodes|
  {
    nodes[k].len == NODELEN
  }

  /** The heap is sound; the blocks handed out are exactly the blocks on the lists and the nodes; and no block
      or node is listed twice. */
  ghost predicate TrackOK(t: Tracked, init: seq<Block>, lo: int, hi: int) {
    && Sound(t.heap, init, lo, hi)
    && (forall b :: OutIff(t, b))
    && (forall p, i :: 0 <= p < |t.lists| && 0 <= i < |t.lists[p]| ==> EntryOK(t, p, i))
    && AllDistinct(t.lists)
    && (forall k :: 0 <= k < |t.nodes| ==> NodeLen(t.nodes, k))
    && NodesApart(t.nodes)
  }

  ghost predicate NodesApart(nodes: seq<Block>) {
    forall i, j :: 0 <= i < j < |nodes| ==> nodes[i] != nodes[j]
  }

  lemma OutCovers(s: State, init: seq<Block>, lo: int, hi: int, b: Block)
    requires Sound(s, init, lo, hi) && b in s.out
    ensures InHeap(b, lo, hi) && Covers(s.out, b.addr) && !Covers(s.free, b.addr)
  {
    var k :| 0 <= k < |s.out| && s.out[k] == b;
    assert Inside(s.out[k], b.addr);
  }

  /** A fresh block starts where no outstanding block does. */
  lemma FreshAddr(s: State, init: seq<Block>, lo: int, hi: int, n: int, g: Grant, b: Block)
    requires Sound(s, init, lo, hi) && g.Granted? && GoodGrant(s.free, n, g, lo, hi) && b in s.out
    ensures b.addr != g.block.addr
  {
    hide Covers, Canonical;
    OutCovers(s, init, lo, hi, b);
    assert Inside(g.block, g.block.addr);
  }

  /** The two requests of one tracked allocation. */
  lemma AllocSteps(t: Tracked, init: seq<Block>, lo: int, hi: int, nbytes: int)
    requires Sound(t.heap, init, lo, hi) && Sane(nbytes) && Grants(t.heap.free, nbytes)
    ensures
      var g := GetMem(t.heap.free, nbytes);
      var h := GetMem(g.rest, NODESIZE);
      && GoodGrant(t.heap.free, RoundMb(nbytes), g, lo, hi) && GoodGrant(g.rest, NODELEN, h, lo, hi)
      && Sound(State(g.rest, t.heap.out + [g.block]), init, lo, hi)
      && Sound(State(h.rest, t.heap.out + [g.block] + [h.block]), init, lo, hi)
  {
    hide Sound, GetMem, GoodGrant;
    SoundCanonical(t.heap, init, lo, hi);
    var g := GetMem(t.heap.free, nbytes);
    GetMemGood(t.heap.free, nbytes, lo, hi);
    SoundGrab(t.heap, init, lo, hi, RoundMb(nbytes), g);
    var s1 := State(g.rest, t.heap.out + [g.block]);
    SoundCanonical(s1, init, lo, hi);
    GetMemGood(g.rest, NODESIZE, lo, hi);
    SoundGrab(s1, init, lo, hi, NODELEN, GetMem(g.rest, NODESIZE));
  }

  /** Every tracked allocation keeps the lists exact. */
  lemma AllocKeeps(t: Tracked, init: seq<Block>, lo: int, hi: int, p: int, nbytes: int)
    requires TrackOK(t, init, lo, hi) && Sane(nbytes) && Grants(t.heap.free, nbytes) && 0 <= p < |t.lists|
    ensures TrackOK(Alloc(t, p, nbytes), init, lo, hi)
  {
    hide Sound, GetMem, GoodGrant;
    var g := GetMem(t.heap.free, nbytes);
    var h := GetMem(g.rest, NODESIZE);
    AllocSteps(t, init, lo, hi, nbytes);
    GrantLens(t.heap.free, RoundMb(nbytes), g, g.rest, NODELEN, h, lo, hi);
    var s1 := State(g.rest, t.heap.out + [g.block]);
    forall b | b in t.heap.out ensures b.addr != g.block.addr {
      FreshAddr(t.heap, init, lo, hi, RoundMb(nbytes), g, b);
    }
    forall b | b in s1.out ensures b.addr != h.block.addr { FreshAddr(s1, init, lo, hi, NODELEN, h, b); }
    assert g.block in s1.out;
    var t' := Alloc(t, p, nbytes);
    AllocLists(t, t', p, g.block, h.block);
    forall k | 0 <= k < |t'.nodes| ensures NodeLen(t'.nodes, k) { if k < |t.nodes| { assert NodeLen(t.nodes, k); } }
    forall k | 0 <= k < |t.nodes| ensures t.nodes[k] in t.heap.out { assert OutIff(t, t.nodes[k]); }
  }

  lemma GrantLens(free: seq<Block>, n: int, g: Grant, rest: seq<Block>, m: int, h: Grant, lo: int, hi: int)
    requires g.Granted? && h.Granted? && GoodGrant(free, n, g, lo, hi) && GoodGrant(rest, m, h, lo, hi)
    ensures g.block.len == n && h.block.len == m && n > 0
  {
  }

  /** The lists with one entry more, for block `b` with node `c`. */
  function Added(t: Tracked, p: int, b: Block, c: Block): seq<seq<Entry>>
    requires 0 <= p < |t.lists|
  {
    t.lists[p := [Entry(c.addr, b.addr, b.len)] + t.lists[p]]
  }

  lemma AllocLists(t: Tracked, t': Tracked, p: int, b: Block, c: Block)
    requires 0 <= p < |t.lists| && c.len == NODELEN
    requires forall x :: OutIff(t, x)
    requires forall q, i :: 0 <= q < |t.lists| && 0 <= i < |t.lists[q]| ==> EntryOK(t, q, i)
    requires AllDistinct(t.lists)
    requires forall x :: x in t.heap.out ==> x.addr != b.addr && x.addr != c.addr
    requires b.addr != c.addr
    requires t'.heap.out == t.heap.out + [b] + [c] && t'.lists == Added(t, p, b, c) && t'.nodes == t.nodes + [c]
    ensures
      && (forall x :: OutIff(t', x))
      && (forall q, i :: 0 <= q < |t'.lists| && 0 <= i < |t'.lists[q]| ==> EntryOK(t', q, i))
      && AllDistinct(t'.lists)
  {
    hide AllDistinct, OutIff;
    forall x ensures OutIff(t', x) { assert OutIff(t, x); OutIffAdded(t, t', p, b, c, x); }
    forall x | x in t.nodes ensures x in t.heap.out { assert OutIff(t, x); OutUse(t, x); }
    forall q, i | 0 <= q < |t'.lists| && 0 <= i < |t'.lists[q]| ensures EntryOK(t', q, i) {
      var j := if q == p then i - 1 else i;
      if j >= 0 { assert EntryOK(t, q, j); }
    }
    AddedDistinct(t, p, b, c);
  }

  lemma OutUse(t: Tracked, x: Block)
    requires OutIff(t, x) && x in t.nodes
    ensures x in t.heap.out
  {
  }

  lemma OutIffAdded(t: Tracked, t': Tracked, p: int, b: Block, c: Block, x: Block)
    requires 0 <= p < |t.lists| && OutIff(t, x)
    requires t'.heap.out == t.heap.out + [b] + [c] && t'.lists == Added(t, p, b, c) && t'.nodes == t.nodes + [c]
    ensures OutIff(t', x)
  {
    var lists' := Added(t, p, b, c);
    assert Listed(lists', x) <==> Listed(t.lists, x) || x == b by {
      if Listed(t.lists, x) {
        var q, i :| 0 <= q < |t.lists| && 0 <= i < |t.lists[q]| && BlockOf(t.lists[q][i]) == x;
        assert BlockOf(lists'[q][if q == p then i + 1 else i]) == x;
      }
      assert BlockOf(lists'[p][0]) == b;
      if Listed(lists', x) {
        var q, i :| 0 <= q < |lists'| && 0 <= i < |lists'[q]| && BlockOf(lists'[q][i]) == x;
        if q != p || i > 0 { assert BlockOf(t.lists[q][if q == p then i - 1 else i]) == x; }
      }
    }
  }

  lemma AddedDistinct(t: Tracked, p: int, b: Block, c: Block)
    requires 0 <= p < |t.lists| && AllDistinct(t.lists)
    requires forall q, i :: 0 <= q < |t.lists| && 0 <= i < |t.lists[q]| ==> EntryOK(t, q, i)
    requires forall x :: x in t.heap.out ==> x.addr != b.addr && x.addr != c.addr
    requires forall x :: x in t.nodes ==> x in t.heap.out
    ensures AllDistinct(Added(t, p, b, c))
  {
    var lists' := Added(t, p, b, c);
    forall q, i, r, j | 0 <= q < |lists'| && 0 <= i < |lists'[q]| && 0 <= r < |lists'| && 0 <= j < |lists'[r]|
      ensures Distinct(lists', q, i, r, j)
    {
      var i0 := if q == p then i - 1 else i;
      var j0 := if r == p then j - 1 else j;
      if i0 >= 0 { assert EntryOK(t, q, i0); }
      if j0 >= 0 { assert EntryOK(t, r, j0); }
      if i0 >= 0 && j0 >= 0 { assert Distinct(t.lists, q, i0, r, j0); }
    }
  }

  // ---------- Release ----------

  lemma OutIndexUnique(s: State, init: seq<Block>, lo: int, hi: int, k: int, m: int)
    requires Sound(s, init, lo, hi) && 0 <= k < |s.out| && 0 <= m < |s.out| && k != m
    ensures s.out[k] != s.out[m]
  {
    hide Canonical, Covers;
    assert InHeap(s.out[k], lo, hi);
    if k < m { assert Separate(s.out[k], s.out[m]); } else { assert Separate(s.out[m], s.out[k]); }
  }

  /** Taking the block at `k` out leaves exactly the others. */
  lemma OutMinus(s: State, init: seq<Block>, lo: int, hi: int, k: int, x: Block)
    requires Sound(s, init, lo, hi) && 0 <= k < |s.out|
    ensures x in s.out[..k] + s.out[k + 1..] <==> x in s.out && x != s.out[k]
  {
    hide Sound;
    var r := s.out[..k] + s.out[k + 1..];
    if x in r {
      var m :| 0 <= m < |r| && r[m] == x;
      OutIndexUnique(s, init, lo, hi, k, if m < k then m else m + 1);
    }
    if x in s.out && x != s.out[k] {
      var m :| 0 <= m < |s.out| && s.out[m] == x;
      assert r[if m < k then m else m - 1] == x;
    }
  }

  lemma DisposeKeeps(t: Tracked, init: seq<Block>, lo: int, hi: int, p: int, k: int)
    requires TrackOK(t, init, lo, hi) && 0 <= p < |t.lists| && 0 <= k < |t.lists[p]| && 0 <= lo && hi <= U32 - 8
    ensures BlockOf(t.lists[p][k]) in t.heap.out && TrackOK(Dispose(t, p, k, lo, hi), init, lo, hi)
    ensures FreeMem(t.heap.free, t.lists[p][k].ptr, t.lists[p][k].len, lo, hi) ==
              Released(Dispose(t, p, k, lo, hi).heap.free)
  {
    hide Sound, FreeMem;
    assert EntryOK(t, p, k);
    var b := BlockOf(t.lists[p][k]);
    var m := IndexOf(t.heap.out, b);
    ReleaseSucceeds(t.heap, init, lo, hi, m);
    var t' := Dispose(t, p, k, lo, hi);
    forall x ensures x in t'.heap.out <==> x in t.heap.out && x != b { OutMinus(t.heap, init, lo, hi, m, x); }
    DisposeLists(t, t', p, k);
  }

  lemma DisposeLists(t: Tracked, t': Tracked, p: int, k: int)
    requires 0 <= p < |t.lists| && 0 <= k < |t.lists[p]|
    requires forall x :: OutIff(t, x)
    requires forall q, i :: 0 <= q < |t.lists| && 0 <= i < |t.lists[q]| ==> EntryOK(t, q, i)
    requires AllDistinct(t.lists)
    requires forall x :: x in t'.heap.out <==> x in t.heap.out && x != BlockOf(t.lists[p][k])
    requires t'.lists == t.lists[p := t.lists[p][..k] + t.lists[p][k + 1..]] && t'.nodes == t.nodes
    ensures forall x :: OutIff(t', x)
    ensures forall q, i :: 0 <= q < |t'.lists| && 0 <= i < |t'.lists[q]| ==> EntryOK(t', q, i)
    ensures AllDistinct(t'.lists)
  {
    forall q, i | 0 <= q < |t'.lists| && 0 <= i < |t'.lists[q]| ensures EntryOK(t', q, i) {
      var o := if q == p && i >= k then i + 1 else i;
      assert t'.lists[q][i] == t.lists[q][o];
      assert EntryOK(t, q, o) && Distinct(t.lists, q, o, p, k);
    }
    forall q, i, r, j | 0 <= q < |t'.lists| && 0 <= i < |t'.lists[q]| && 0 <= r < |t'.lists| && 0 <= j < |t'.lists[r]|
      ensures Distinct(t'.lists, q, i, r, j)
    {
      assert Distinct(t.lists, q, if q == p && i >= k then i + 1 else i, r, if r == p && j >= k then j + 1 else j);
    }
    forall x ensures OutIff(t', x) { DisposeOutIff(t, t', p, k, x); }
  }

  lemma DisposeOutIff(t: Tracked, t': Tracked, p: int, k: int, x: Block)
    requires 0 <= p < |t.lists| && 0 <= k < |t.lists[p]| && OutIff(t, x) && EntryOK(t, p, k) && AllDistinct(t.lists)
    requires forall x :: x in t'.heap.out <==> x in t.heap.out && x != BlockOf(t.lists[p][k])
    requires t'.lists == t.lists[p := t.lists[p][..k] + t.lists[p][k + 1..]] && t'.nodes == t.nodes
    ensures OutIff(t', x)
  {
    var b := BlockOf(t.lists[p][k]);
    if Listed(t'.lists, x) {
      var q, i :| 0 <= q < |t'.lists| && 0 <= i < |t'.lists[q]| && BlockOf(t'.lists[q][i]) == x;
      var o := if q == p && i >= k then i + 1 else i;
      assert t'.lists[q][i] == t.lists[q][o];
      assert Distinct(t.lists, q, o, p, k);
    }
    if Listed(t.lists, x) && x != b {
      var q, i :| 0 <= q < |t.lists| && 0 <= i < |t.lists[q]| && BlockOf(t.lists[q][i]) == x;
      var o := if q == p && i > k then i - 1 else i;
      assert BlockOf(t'.lists[q][o]) == x;
    }
  }

  /** Released with its own size, a block is disposed of. */
  lemma RightSize(t: Tracked, init: seq<Block>, p: int, k: int, nbytes: int, lo: int, hi: int)
    requires TrackOK(t, init, lo, hi) && 0 <= p < |t.lists| && 0 <= k < |t.lists[p]| && 0 <= lo && hi <= U32 - 8
    requires 0 < nbytes < U32 && RoundMb(nbytes) == t.lists[p][k].len
    ensures BlockOf(t.lists[p][k]) in t.heap.out
    ensures Unlisted(t, p, k, nbytes, lo, hi) == Dispose(t, p, k, lo, hi)
    ensures FreeMem(t.heap.free, t.lists[p][k].ptr, nbytes, lo, hi).Released?
  {
    hide Sound, Below, Merge;
    assert EntryOK(t, p, k);
    var b := BlockOf(t.lists[p][k]);
    OutCovers(t.heap, init, lo, hi, b);
    SaneRounds(nbytes);
    SaneRounds(b.len);
    DisposeKeeps(t, init, lo, hi, p, k);
  }

  /** Releasing a block that is on the list keeps the lists exact, if and only if the size is the one the block was
      asked for, up to rounding. */
  lemma ReleaseKeepsIff(t: Tracked, init: seq<Block>, p: int, k: int, nbytes: int, lo: int, hi: int)
    requires TrackOK(t, init, lo, hi) && 0 <= p < |t.lists| && 0 <= k < |t.lists[p]| && 0 <= lo && hi <= U32 - 8
    requires 0 < nbytes < U32
    ensures BlockOf(t.lists[p][k]) in t.heap.out
    ensures TrackOK(Unlisted(t, p, k, nbytes, lo, hi), init, lo, hi) <==> RoundMb(nbytes) == t.lists[p][k].len
  {
    hide TrackOK, RoundMb, Sound, Total, Merge, Below, Dispose;
    assert BlockOf(t.lists[p][k]) in t.heap.out by { ListedOut(t, init, lo, hi, p, k); }
    if RoundMb(nbytes) == t.lists[p][k].len {
      RightSize(t, init, p, k, nbytes, lo, hi);
      DisposeKeeps(t, init, lo, hi, p, k);
    } else {
      var b := BlockOf(t.lists[p][k]);
      var m := IndexOf(t.heap.out, b);
      var t' := Unlisted(t, p, k, nbytes, lo, hi);
      ListedOut(t, init, lo, hi, p, k);
      TriedTotal(t.heap.free, b.addr, nbytes, lo, hi);
      TotalSplice(t.heap.out, m, []);
      TotalNone();
      assert t.heap.out[..m] + [] + t.heap.out[m + 1..] == t'.heap.out;
      SoundTotal(t, init, lo, hi);
      if TrackOK(t', init, lo, hi) { SoundTotal(t', init, lo, hi); }
    }
  }

  lemma ListedOut(t: Tracked, init: seq<Block>, lo: int, hi: int, p: int, k: int)
    requires TrackOK(t, init, lo, hi) && 0 <= p < |t.lists| && 0 <= k < |t.lists[p]|
    ensures BlockOf(t.lists[p][k]) in t.heap.out && t.lists[p][k].len > 0
  {
    hide Sound;
    assert EntryOK(t, p, k);
    OutCovers(t.heap, init, lo, hi, BlockOf(t.lists[p][k]));
  }

  lemma SoundTotal(t: Tracked, init: seq<Block>, lo: int, hi: int)
    requires TrackOK(t, init, lo, hi)
    ensures Total(t.heap.free) + Total(t.heap.out) == Total(init)
  {
  }

  lemma TriedTotal(free: seq<Block>, addr: int, nbytes: int, lo: int, hi: int)
    ensures
      var r := FreeMem(free, addr, nbytes, lo, hi);
      Total(Tried(free, r)) == Total(free) + (if r.Released? then RoundMb(nbytes) else 0)
  {
    hide Total, Merge, RoundMb;
    JoinedTotal(free, Below(free, addr), Block(addr, RoundMb(nbytes)));
  }

  // ---------- Runs ----------

  datatype Request = Get(p: int, nbytes: int) | Free(p: int, k: int)

  predicate Permitted(t: Tracked, r: Request) {
    match r
    case Get(p, n) => 0 <= p < |t.lists| && Sane(n) && Grants(t.heap.free, n)
    case Free(p, k) => 0 <= p < |t.lists| && 0 <= k < |t.lists[p]| && BlockOf(t.lists[p][k]) in t.heap.out
  }

  function Serve(t: Tracked, r: Request, lo: int, hi: int): Tracked
    requires Permitted(t, r)
  {
    match r
    case Get(p, n) => Alloc(t, p, n)
    case Free(p, k) => Dispose(t, p, k, lo, hi)
  }

  predicate Path(t: Tracked, rs: seq<Request>, lo: int, hi: int)
    decreases |rs|
  {
    rs == [] || (Permitted(t, rs[0]) && Path(Serve(t, rs[0], lo, hi), rs[1..], lo, hi))
  }

  function Run(t: Tracked, rs: seq<Request>, lo: int, hi: int): Tracked
    requires Path(t, rs, lo, hi)
    decreases |rs|
  {
    if rs == [] then t else Run(Serve(t, rs[0], lo, hi), rs[1..], lo, hi)
  }

  function Gets(rs: seq<Request>): nat {
    if rs == [] then 0 else (if rs[0].Get? then 1 else 0) + Gets(rs[1..])
  }

  lemma {:induction false} RunKeeps(t: Tracked, init: seq<Block>, rs: seq<Request>, lo: int, hi: int)
    requires TrackOK(t, init, lo, hi) && Path(t, rs, lo, hi) && 0 <= lo && hi <= U32 - 8
    ensures TrackOK(Run(t, rs, lo, hi), init, lo, hi)
    ensures |Run(t, rs, lo, hi).nodes| == |t.nodes| + Gets(rs)
    decreases |rs|
  {
    hide TrackOK, Grants, Step;
    if rs != [] {
      match rs[0]
      case Get(p, n) =>
        AllocKeeps(t, init, lo, hi, p, n);
        RunKeeps(Alloc(t, p, n), init, rs[1..], lo, hi);
      case Free(p, k) =>
        DisposeKeeps(t, init, lo, hi, p, k);
        RunKeeps(Dispose(t, p, k, lo, hi), init, rs[1..], lo, hi);
    }
  }

  /** A heap without outstanding blocks and `n` processes with empty lists. */
  function Start(init: seq<Block>, n: nat): Tracked {
    Tracked(State(init, []), seq(n, _ => []), [])
  }

  lemma StartOK(init: seq<Block>, n: nat, lo: int, hi: int)
    requires Canonical(init, lo, hi)
    ensures TrackOK(Start(init, n), init, lo, hi)
  {
    hide Canonical;
    StartSound(init, lo, hi);
    hide Sound;
    var t := Start(init, n);
    forall b ensures OutIff(t, b) { }
  }

  /** After any run a block is on the list of some process exactly if it is outstanding and no node; the blocks
      on the lists and all nodes ever made are pairwise disjoint and not free; and each allocation has made
      one node. */
  lemma ListsExact(init: seq<Block>, n: nat, rs: seq<Request>, lo: int, hi: int, b: Block, c: Block)
    requires Canonical(init, lo, hi) && 0 <= lo && hi <= U32 - 8 && Path(Start(init, n), rs, lo, hi)
    ensures
      var t := Run(Start(init, n), rs, lo, hi);
      && (Listed(t.lists, b) <==> b in t.heap.out && b !in t.nodes)
      && (b in t.heap.out && c in t.heap.out && b != c ==> Separate(b, c))
      && (b in t.heap.out ==> InHeap(b, lo, hi) && !Covers(t.heap.free, b.addr))
      && (b in t.nodes ==> b in t.heap.out && b.len == NODELEN)
      && |t.nodes| == Gets(rs)
  {
    hide Canonical, Covers;
    StartOK(init, n, lo, hi);
    RunKeeps(Start(init, n), init, rs, lo, hi);
    var t := Run(Start(init, n), rs, lo, hi);
    assert OutIff(t, b);
    if Listed(t.lists, b) {
      var p, i :| 0 <= p < |t.lists| && 0 <= i < |t.lists[p]| && BlockOf(t.lists[p][i]) == b;
      assert EntryOK(t, p, i);
    }
    if b in t.heap.out { OutCovers(t.heap, init, lo, hi, b); }
    if b in t.heap.out && c in t.heap.out && b != c { OutApart(t.heap, init, lo, hi, b, c); }
    if b in t.nodes {
      var k :| 0 <= k < |t.nodes| && t.nodes[k] == b;
      assert NodeLen(t.nodes, k);
    }
  }

  /** The blocks that the entries of a list stand for. */
  function Blocks(list: seq<Entry>): seq<Block> {
    seq(|list|, i requires 0 <= i < |list| => BlockOf(list[i]))
  }

  /** What process `p` holds after a request, the last one first: a block it asked for comes in front, and one it gives
      back goes; what other processes ask for or give back does not concern it. */
  function HoldsAfter(t: Tracked, r: Request, p: int, held: seq<Block>): seq<Block> {
    match r
    case Get(q, n) => if q == p && GetMem(t.heap.free, n).Granted? then [GetMem(t.heap.free, n).block] + held else held
    case Free(q, k) => if q == p && 0 <= k < |held| then held[..k] + held[k + 1..] else held
  }

  function Holds(t: Tracked, rs: seq<Request>, lo: int, hi: int, p: int, held: seq<Block>): seq<Block>
    requires Path(t, rs, lo, hi)
    decreases |rs|
  {
    if rs == [] then held else Holds(Serve(t, rs[0], lo, hi), rs[1..], lo, hi, p, HoldsAfter(t, rs[0], p, held))
  }

  lemma ServeHolds(t: Tracked, r: Request, lo: int, hi: int, p: int)
    requires Permitted(t, r) && 0 <= p < |t.lists|
    ensures
      var t' := Serve(t, r, lo, hi);
      |t'.lists| == |t.lists| && Blocks(t'.lists[p]) == HoldsAfter(t, r, p, Blocks(t.lists[p]))
  {
    hide GetMem, FreeMem;
  }

  lemma {:induction false} RunHolds(t: Tracked, rs: seq<Request>, lo: int, hi: int, p: int)
    requires Path(t, rs, lo, hi) && 0 <= p < |t.lists|
    ensures
      var t' := Run(t, rs, lo, hi);
      |t'.lists| == |t.lists| && Blocks(t'.lists[p]) == Holds(t, rs, lo, hi, p, Blocks(t.lists[p]))
    decreases |rs|
  {
    hide Serve, Permitted, HoldsAfter, Blocks;
    if rs != [] {
      ServeHolds(t, rs[0], lo, hi, p);
      RunHolds(Serve(t, rs[0], lo, hi), rs[1..], lo, hi, p);
    }
  }

  /** After any run the list of each process is what it was given and has not given back. */
  lemma ListsOwned(init: seq<Block>, n: nat, rs: seq<Request>, lo: int, hi: int, p: int)
    requires Path(Start(init, n), rs, lo, hi) && 0 <= p < n
    ensures
      var t := Run(Start(init, n), rs, lo, hi);
      |t.lists| == n && Blocks(t.lists[p]) == Holds(Start(init, n), rs, lo, hi, p, [])
  {
    hide Path, Run, Holds;
    RunHolds(Start(init, n), rs, lo, hi, p);
    assert Blocks(Start(init, n).lists[p]) == [];
  }

  lemma OutApart(s: State, init: seq<Block>, lo: int, hi: int, b: Block, c: Block)
    requires Sound(s, init, lo, hi) && b in s.out && c in s.out && b != c
    ensures Separate(b, c)
  {
    hide Canonical, Covers;
    var k :| 0 <= k < |s.out| && s.out[k] == b;
    var m :| 0 <= m < |s.out| && s.out[m] == c;
    if k < m { assert Separate(s.out[k], s.out[m]); } else { assert Separate(s.out[m], s.out[k]); }
  }

  lemma {:induction false} TotalOf(blocks: seq<Block>, len: int)
    requires forall b :: b in blocks ==> b.len == len
    ensures Total(blocks) == len * |blocks|
  {
    if blocks != [] { TotalOf(blocks[1..], len); }
  }

  lemma HasElement(t: seq<Block>)
    requires t != []
    ensures exists b :: b in t
  {
    assert t[0] in t;
  }

  lemma {:induction false} SameCount(s: seq<Block>, t: seq<Block>)
    requires forall i, j :: 0 <= i < j < |s| ==> s[i] != s[j]
    requires forall i, j :: 0 <= i < j < |t| ==> t[i] != t[j]
    requires forall b :: b in s <==> b in t
    ensures |s| == |t|
  {
    if s == [] {
      if t != [] { HasElement(t); }
    } else {
      assert s[0] in t;
      var k := IndexOf(t, s[0]);
      var t' := t[..k] + t[k + 1..];
      forall b ensures b in s[1..] <==> b in t' {
        if b in t' {
          var m :| 0 <= m < |t'| && t'[m] == b;
          assert t[if m < k then m else m + 1] == b && b in s;
        }
        if b in s[1..] {
          var m :| 1 <= m < |s| && s[m] == b;
          assert b in t;
          var j := IndexOf(t, b);
          assert t'[if j < k then j else j - 1] == b;
        }
      }
      SameCount(s[1..], t');
    }
  }

  /** The nodes are never given back: once every process has freed all its blocks, 16 bytes for each allocation
      are still missing from the free list. */
  lemma NodesLeak(init: seq<Block>, n: nat, rs: seq<Request>, lo: int, hi: int)
    requires Canonical(init, lo, hi) && 0 <= lo && hi <= U32 - 8 && Path(Start(init, n), rs, lo, hi)
    requires var t := Run(Start(init, n), rs, lo, hi); forall p :: 0 <= p < |t.lists| ==> t.lists[p] == []
    ensures Total(Run(Start(init, n), rs, lo, hi).heap.free) == Total(init) - NODELEN * Gets(rs)
  {
    hide Canonical, Covers, Total;
    StartOK(init, n, lo, hi);
    RunKeeps(Start(init, n), init, rs, lo, hi);
    var t := Run(Start(init, n), rs, lo, hi);
    forall b ensures b in t.heap.out <==> b in t.nodes { assert OutIff(t, b); }
    forall b | b in t.heap.out ensures b.len == NODELEN {
      var k :| 0 <= k < |t.nodes| && t.nodes[k] == b;
      assert NodeLen(t.nodes, k);
    }
    TotalOf(t.heap.out, NODELEN);
    forall i, j | 0 <= i < j < |t.heap.out| ensures t.heap.out[i] != t.heap.out[j] {
      OutIndexUnique(t.heap, init, lo, hi, i, j);
    }
    SameCount(t.heap.out, t.nodes);
  }

  // ---------- The code ----------

  /** The address of the node after which entry `i` is linked. */
  function NodeBefore(head: int, list: seq<Entry>, i: int): int
    requires 0 <= i <= |list|
  {
    if i == 0 then head else list[i - 1].node
  }

  ghost predicate NextAt(next: map<int, int>, head: int, list: seq<Entry>, i: int)
    requires 0 <= i <= |list|
  {
    NodeBefore(head, list, i) in next && next[NodeBefore(head, list, i)] == if i < |list| then list[i].node else NULL
  }

  ghost predicate WordsAt(memblockptr: map<int, int>, memlen: map<int, int>, list: seq<Entry>, i: int)
    requires 0 <= i < |list|
  {
    var e := list[i];
    && e.node > 0 && e.node in memblockptr && memblockptr[e.node] == e.ptr
    && e.node in memlen && memlen[e.node] == e.len
  }

  /** The nodes in memory spell out the list. */
  ghost predicate Chained(next: map<int, int>, memblockptr: map<int, int>, memlen: map<int, int>, head: int,
                          list: seq<Entry>) {
    && (forall i :: 0 <= i <= |list| ==> NextAt(next, head, list, i))
    && (forall i :: 0 <= i < |list| ==> WordsAt(memblockptr, memlen, list, i))
  }

  /** No node of the list is at address `a`, nor is its head. */
  ghost predicate Off(head: int, list: seq<Entry>, a: int) {
    head != a && forall i :: 0 <= i < |list| ==> list[i].node != a
  }

  lemma ChainedFrame(next: map<int, int>, memblockptr: map<int, int>, memlen: map<int, int>, head: int,
                     list: seq<Entry>, a: int, x: int)
    requires Chained(next, memblockptr, memlen, head, list) && Off(head, list, a)
    ensures Chained(next[a := x], memblockptr, memlen, head, list)
  {
    var next' := next[a := x];
    forall i | 0 <= i <= |list| ensures NextAt(next', head, list, i) { assert NextAt(next, head, list, i); }
  }

  lemma ChainedWords(next: map<int, int>, memblockptr: map<int, int>, memlen: map<int, int>, head: int,
                     list: seq<Entry>, a: int, ptr: int, len: int)
    requires Chained(next, memblockptr, memlen, head, list) && Off(head, list, a)
    ensures Chained(next, memblockptr[a := ptr], memlen[a := len], head, list)
  {
    var m, n := memblockptr[a := ptr], memlen[a := len];
    forall i | 0 <= i < |list| ensures WordsAt(m, n, list, i) { assert WordsAt(memblockptr, memlen, list, i); }
  }

  /** Linking a node in behind the head. */
  lemma ChainedPush(next: map<int, int>, memblockptr: map<int, int>, memlen: map<int, int>, head: int, list: seq<Entry>,
                    e: Entry)
    requires Chained(next, memblockptr, memlen, head, list) && Off(head, list, e.node) && e.node > 0
    requires forall i :: 0 <= i < |list| ==> list[i].node != head
    ensures head in next
    ensures Chained(next[e.node := next[head]][head := e.node], memblockptr[e.node := e.ptr], memlen[e.node := e.len],
              head, [e] + list)
  {
    var next' := next[e.node := next[head]][head := e.node];
    var list' := [e] + list;
    assert NextAt(next, head, list, 0);
    forall i | 0 <= i <= |list'| ensures NextAt(next', head, list', i) {
      if i > 0 { assert NextAt(next, head, list, i - 1); }
      if i > 1 { assert list'[i - 1] == list[i - 2]; }
    }
    var m, n := memblockptr[e.node := e.ptr], memlen[e.node := e.len];
    forall i | 0 <= i < |list'| ensures WordsAt(m, n, list', i) {
      if i > 0 { assert WordsAt(memblockptr, memlen, list, i - 1); }
    }
  }

  /** Unlinking entry `k`. */
  lemma ChainedDrop(next: map<int, int>, memblockptr: map<int, int>, memlen: map<int, int>, head: int, list: seq<Entry>,
                    k: int)
    requires Chained(next, memblockptr, memlen, head, list) && 0 <= k < |list|
    requires forall i, j :: 0 <= i < j < |list| ==> list[i].node != list[j].node
    requires forall i :: 0 <= i < |list| ==> list[i].node != head
    ensures list[k].node in next
    ensures Chained(next[NodeBefore(head, list, k) := next[list[k].node]], memblockptr, memlen, head,
              list[..k] + list[k + 1..])
  {
    var list' := list[..k] + list[k + 1..];
    assert NextAt(next, head, list, k + 1);
    var next' := next[NodeBefore(head, list, k) := next[list[k].node]];
    forall i | 0 <= i <= |list'| ensures NextAt(next', head, list', i) {
      var o := if i <= k then i else i + 1;
      assert NextAt(next, head, list, o);
    }
    forall i | 0 <= i < |list'| ensures WordsAt(memblockptr, memlen, list', i) {
      assert WordsAt(memblockptr, memlen, list, if i < k then i else i + 1);
    }
  }

  /** How freemem ends: it returns OK or SYSERR, or follows a null link. */
  datatype Ending = Returns(ok: bool) | Crashes

  /** The entry of a tracked allocation goes in front of the list of the process that asked, and on no other. */
  lemma AllocEntry(t: Tracked, p: int, nbytes: int)
    requires 0 <= p < |t.lists| && Grants(t.heap.free, nbytes)
    ensures
      var ls := Alloc(t, p, nbytes).lists;
      && ls == t.lists[p := ls[p]] && |ls[p]| > 0 && ls[p][1..] == t.lists[p]
      && ls[p][0].ptr == FreeLists.GetMem(t.heap.free, nbytes).block.addr && ls[p][0].len == RoundMb(nbytes)
  {
    hide RoundMb;
  }

  class Tracker {
    const heap: Allocator
    /** prheaphd of each process: the header nodes, below the heap. */
    const heads: seq<int>
    var next: map<int, int>
    var memblockptr: map<int, int>
    var memlen: map<int, int>
    var memblockkflag: bool
    var currpid: int
    ghost var t: Tracked
    ghost const init: seq<Block>

    ghost predicate Valid()
      reads this, heap
    {
      && heap.Valid() && heap.free == t.heap.free && heap.maxheap <= U32 - 8
      && TrackOK(t, init, heap.minheap, heap.maxheap)
      && 0 <= currpid < |heads| == |t.lists|
      && (forall p :: 0 <= p < |heads| ==> ListAt(p))
      && HeadsOK(heads, heap.minheap)
    }

    ghost predicate ListAt(p: int)
      requires 0 <= p < |heads| == |t.lists|
      reads this
    {
      Chained(next, memblockptr, memlen, heads[p], t.lists[p])
    }

    /** Each process has a header node with an empty list.  create writes through `prheaphd` as if it had one, but
        does not allocate it. */
    constructor (heap: Allocator, heads: seq<int>)
      requires heap.Valid() && heap.maxheap <= U32 - 8 && Canonical(heap.free, heap.minheap, heap.maxheap)
      requires heads != [] && HeadsOK(heads, heap.minheap)
      ensures Valid() && !memblockkflag && this.heap == heap && this.heads == heads && t == Start(heap.free, |heads|)
                && init == heap.free
    {
      this.heap := heap;
      this.heads := heads;
      next := map a | a in heads :: NULL;
      memblockptr, memlen := map[], map[];
      memblockkflag := false;
      currpid := 0;
      t := Start(heap.free, |heads|);
      init := heap.free;
      StartOK(heap.free, |heads|, heap.minheap, heap.maxheap);
      new;
      forall p | 0 <= p < |heads| ensures ListAt(p) {
        assert NextAt(next, heads[p], t.lists[p], 0);
      }
    }

    /** The search and the cut of getmem, without the bookkeeping, getmem.c:26-41 and 51-63; `curr` is NULL when
        no block fits. */
    method Cut(nbytes: int) returns (curr: int)
      requires heap.Valid() && Sane(nbytes)
      modifies heap
      ensures heap.Valid()
      ensures
        var g := FreeLists.GetMem(old(heap.free), nbytes);
        if g.Granted? then
          && curr == g.block.addr && curr > heap.memlist && heap.free == g.rest
          && curr in heap.mlength && heap.mlength[curr] == g.block.len
        else curr == NULL && heap.free == old(heap.free)
      ensures LengthsKept(old(heap.mlength), heap.mlength, old(heap.free), heap.memlist)
    {
      hide Loose, Linked, Total, RoundMb, FirstFit, NodeAt, LengthsKept;
      var n := RoundMb(nbytes);
      SaneRounds(nbytes);
      LengthsSelf(heap.mlength, heap.free, heap.memlist);
      var prev;
      prev, curr := heap.FindFirst(n);
      ghost var i := FirstFit(heap.free, n);
      LinkedAt(heap.mnext, heap.mlength, heap.memlist, heap.free, i);
      if curr != NULL {
        CutAt(prev, curr, n, i);
      }
    }

    /** getmem.c:32-59, once the first block that fits is found. */
    method CutAt(prev: int, curr: int, n: int, ghost i: int)
      requires heap.Valid() && 0 <= i < |heap.free| && 0 < n <= heap.free[i].len
      requires prev == NodeAt(heap.memlist, heap.free, i) && curr == heap.free[i].addr
      modifies heap
      ensures heap.Valid() && curr > heap.memlist && curr in heap.mlength && heap.mlength[curr] == n
      ensures
        var f0 := old(heap.free);
        heap.free == if f0[i].len == n then f0[..i] + f0[i + 1..]
            else f0[..i] + [Block(curr + n, f0[i].len - n)] + f0[i + 1..]
      ensures LengthsKept(old(heap.mlength), heap.mlength, old(heap.free), heap.memlist)
    {
      hide Loose, Linked, Total, NodeAt, Covers;
      ghost var f0 := heap.free;
      LinkedAt(heap.mnext, heap.mlength, heap.memlist, heap.free, i);
      CutClear(heap.mnext, heap.mlength, heap.memlist, f0, i, n);
      CutCovered(f0, i, n);
      if heap.mlength[curr] == n {
        heap.TakeWhole(prev, curr, n, i);
        assert heap.free == f0[..i] + f0[i + 1..];
      } else {
        heap.TakeLow(prev, curr, n, i);
        assert heap.free == f0[..i] + [Block(f0[i].addr + n, f0[i].len - n)] + f0[i + 1..];
      }
      heap.SetLength(curr, n);
    }

    /** getmem; with the flag set, for a node of a list, it keeps no books.  If there is room for the block but not for
        its node, the code writes through SYSERR as if it were the address of a node. */
    method GetMem(nbytes: int) returns (wild: bool, r: int, ghost depth: nat)
      requires heap.Valid() && (nbytes == 0 || Sane(nbytes)) && (!memblockkflag ==> Valid())
      modifies this, heap
      decreases if memblockkflag then 0 else 3, 0
      ensures heap.Valid() && currpid == old(currpid)
      ensures wild <==> !old(memblockkflag) && nbytes != 0 && FreeLists.GetMem(old(heap.free), nbytes).Granted?
                          && !Grants(old(heap.free), nbytes)
      ensures !wild ==> r == Address(if nbytes == 0 then Refused else FreeLists.GetMem(old(heap.free), nbytes))
      ensures nbytes == 0 || FreeLists.GetMem(old(heap.free), nbytes).Refused? ==>
                Same(old(next), old(memblockptr), old(memlen), old(t)) && heap.free == old(heap.free)
                    && memblockkflag == old(memblockkflag)
      ensures !wild && nbytes != 0 && FreeLists.GetMem(old(heap.free), nbytes).Granted? ==> !memblockkflag
      ensures old(memblockkflag) && !memblockkflag ==>
                && Same(old(next), old(memblockptr), old(memlen), old(t))
                   && heap.free == FreeLists.GetMem(old(heap.free), nbytes).rest
      ensures old(memblockkflag) ==> LengthsKept(old(heap.mlength), heap.mlength, old(heap.free), heap.memlist)
      ensures !wild && !old(memblockkflag) ==> Valid()
      ensures !wild && !old(memblockkflag) && nbytes != 0 && FreeLists.GetMem(old(heap.free), nbytes).Granted? ==>
                Grants(old(t).heap.free, nbytes) && t == Alloc(old(t), currpid, nbytes)
      ensures !wild && !old(memblockkflag) && nbytes != 0 && FreeLists.GetMem(old(heap.free), nbytes).Granted? ==>
                && t.lists == old(t).lists[currpid := t.lists[currpid]] && |t.lists[currpid]| > 0
                && t.lists[currpid][1..] == old(t).lists[currpid]
                && t.lists[currpid][0].ptr == r && t.lists[currpid][0].len == RoundMb(nbytes)
      ensures depth <= 2 && (old(memblockkflag) ==> depth <= 1)
    {
      hide TrackOK, Chained, Alloc, Linked, Loose, LengthsKept, Canonical, Covers, HeadsOK, Total, FreeLists.GetMem;
      depth := 1;
      LengthsSelf(heap.mlength, heap.free, heap.memlist);
      wild, r := false, SYSERR;
      if nbytes == 0 { return; }
      var curr := Cut(nbytes);
      if curr == NULL { return; }
      if !memblockkflag {
        ghost var t0 := t;
        wild, depth := Track(curr, nbytes);
        if wild { return; }
        AllocEntry(t0, currpid, nbytes);
      }
      memblockkflag := false;
      r := curr;
    }

    /** getmem.c:43-47 and 65-69, for a block just cut from the free list. */
    method Track(curr: int, ghost nbytes: int) returns (wild: bool, ghost depth: nat)
      requires heap.Valid() && TrackedBut() && Sane(nbytes) && FreeLists.GetMem(t.heap.free, nbytes).Granted?
      requires heap.free == FreeLists.GetMem(t.heap.free, nbytes).rest
      requires curr == FreeLists.GetMem(t.heap.free, nbytes).block.addr && curr in heap.mlength
      requires heap.mlength[curr] == FreeLists.GetMem(t.heap.free, nbytes).block.len
      modifies this, heap
      decreases 2, 0
      ensures heap.Valid() && currpid == old(currpid) && depth <= 2 && (wild <==> !Grants(old(t).heap.free, nbytes))
      ensures !wild ==> Valid() && t == Alloc(old(t), currpid, nbytes) && !memblockkflag
    {
      hide TrackOK, Chained, Linked, Loose, KeptLength, Canonical, Covers, HeadsOK, Total, FreeLists.GetMem;
      ghost var g := FreeLists.GetMem(t.heap.free, nbytes);
      ghost var h := FreeLists.GetMem(g.rest, NODESIZE);
      BeforeInsert(t, init, heap.minheap, heap.maxheap, heads, currpid, nbytes, heap.memlist);
      assert ListAt(currpid);
      HeadIn(next, memblockptr, memlen, heads[currpid], t.lists[currpid]);
      ghost var d;
      wild, d := MemInsert(heads[currpid], curr);
      depth := d + 1;
      if wild { return; }
      AllocKeeps(t, init, heap.minheap, heap.maxheap, currpid, nbytes);
      ghost var e := Entry(h.block.addr, g.block.addr, g.block.len);
      forall p | 0 <= p < |heads|
        ensures Chained(next, memblockptr, memlen, heads[p], if p == currpid then [e] + t.lists[p] else t.lists[p])
      {
        assert old(ListAt(p)) && old(ListAt(currpid));
        OneInserted(t, init, heap.minheap, heap.maxheap, heads, old(next), old(memblockptr), old(memlen), currpid,
            nbytes, p);
      }
      t := Alloc(t, currpid, nbytes);
    }

    /** memextract: unlink the first node for the block at `memptr`.  If there is none, the code follows the null
        link at the end of the list. */
    method MemExtract(hdptr: int, memptr: int, ghost list: seq<Entry>) returns (crashes: bool)
      requires Chained(next, memblockptr, memlen, hdptr, list)
      modifies this`next
      ensures crashes <==> forall j :: 0 <= j < |list| ==> list[j].ptr != memptr
      ensures crashes ==> next == old(next)
      ensures
        var k := Found(list, memptr);
        !crashes ==>
          k < |list| && list[k].node in old(next)
          && next == old(next)[NodeBefore(hdptr, list, k) := old(next)[list[k].node]]
    {
      hide Chained;
      ChainAt(next, memblockptr, memlen, hdptr, list, 0);
      var usedprev := hdptr;
      var usedcurr := next[hdptr];
      ghost var i := 0;
      while usedcurr != NULL
        invariant next == old(next) && 0 <= i <= |list| && usedprev == NodeBefore(hdptr, list, i)
        invariant usedcurr == if i < |list| then list[i].node else NULL
        invariant forall j :: 0 <= j < i ==> list[j].ptr != memptr
        decreases |list| - i
      {
        ChainAt(next, memblockptr, memlen, hdptr, list, i);
        if memblockptr[usedcurr] == memptr { break; }
        usedprev := usedcurr;
        ChainAt(next, memblockptr, memlen, hdptr, list, i + 1);
        usedcurr := next[usedcurr];
        i := i + 1;
      }
      ChainAt(next, memblockptr, memlen, hdptr, list, i);
      if usedcurr == NULL { return true; }
      ChainAt(next, memblockptr, memlen, hdptr, list, i + 1);
      next := next[usedprev := next[usedcurr]];
      crashes := false;
    }

    /** The memory is what `t` says, whether that is in order or not. */
    ghost predicate Stands()
      reads this, heap
    {
      && heap.Valid() && heap.free == t.heap.free && 0 <= currpid < |heads| == |t.lists|
      && (forall p :: 0 <= p < |heads| ==> ListAt(p))
    }

    /** freemem, for whatever block and size: neither the rounded size nor the end of the range may wrap past 2^32. */
    method FreeMem(blkaddr: int, nbytes: int) returns (e: Ending)
      requires Valid() && 0 <= blkaddr < U32
      requires nbytes == 0 || (Sane(nbytes) && blkaddr + RoundMb(nbytes) < U32)
      modifies this, heap
      ensures Stands() && currpid == old(currpid) && memblockkflag == old(memblockkflag)
      ensures nbytes == 0 || blkaddr < heap.minheap || blkaddr > heap.maxheap ==>
                e == Returns(false) && Valid() && t == old(t)
      ensures
        var k := Found(old(t).lists[currpid], blkaddr);
        nbytes != 0 && heap.minheap <= blkaddr <= heap.maxheap ==>
          && (e == Crashes <==> k == |old(t).lists[currpid]|)
          && (e == Crashes ==> Valid() && t == old(t))
          && (e != Crashes ==>
                && BlockOf(old(t).lists[currpid][k]) in old(t).heap.out
                && t == Unlisted(old(t), currpid, k, nbytes, heap.minheap, heap.maxheap)
                && e == Returns(
                     FreeLists.FreeMem(old(t).heap.free, blkaddr, nbytes, heap.minheap, heap.maxheap).Released?)
                && (Valid() <==> RoundMb(nbytes) == old(t).lists[currpid][k].len)
                && (Valid() ==> e == Returns(true) && t == Dispose(old(t), currpid, k, heap.minheap, heap.maxheap)))
    {
      hide TrackOK, Chained, Linked, Loose, HeadsOK, Total, Dispose, Canonical, Covers, RoundMb, FreeLists.FreeMem;
      if nbytes == 0 || blkaddr < heap.minheap || blkaddr > heap.maxheap { return Returns(false); }
      ghost var list := t.lists[currpid];
      ghost var k := Found(list, blkaddr);
      assert ListAt(currpid);
      var crashes := MemExtract(heads[currpid], blkaddr, list);
      if crashes {
        forall p | 0 <= p < |heads| ensures ListAt(p) { assert old(ListAt(p)); }
        return Crashes;
      }
      ListedOut(t, init, heap.minheap, heap.maxheap, currpid, k);
      ReleaseKeepsIff(t, init, currpid, k, nbytes, heap.minheap, heap.maxheap);
      var ok := heap.FreeMem(blkaddr, nbytes);
      forall p | 0 <= p < |heads|
        ensures Chained(next, memblockptr, memlen, heads[p], WithoutEntry(t.lists, currpid, k)[p])
      {
        assert old(ListAt(p)) && old(ListAt(currpid));
        OneExtracted(t, init, heap.minheap, heap.maxheap, heads, old(next), memblockptr, memlen, currpid, k, p);
      }
      if RoundMb(nbytes) == list[k].len { RightSize(t, init, currpid, k, nbytes, heap.minheap, heap.maxheap); }
      t := Unlisted(t, currpid, k, nbytes, heap.minheap, heap.maxheap);
      e := Returns(ok);
    }

    /** What a process was given it can give back: the release neither fails nor crashes, and the lists are then those
        before. */
    method GetAndFree(nbytes: int) returns (e: Ending)
      requires Valid() && !memblockkflag && Sane(nbytes) && Grants(heap.free, nbytes)
      modifies this, heap
      ensures Valid() && e == Returns(true) && t.lists == old(t.lists) && currpid == old(currpid)
    {
      hide TrackOK, Chained, Linked, Loose, HeadsOK, Total, Canonical, Covers, RoundMb, FreeLists.GetMem, Unlisted,
          Alloc;
      ghost var was := t.lists;
      var wild, r;
      ghost var depth;
      wild, r, depth := GetMem(nbytes);
      EntryInHeap(t, init, heap.minheap, heap.maxheap, currpid, 0);
      FirstEntry(was, t.lists, currpid);
      e := FreeMem(r, nbytes);
    }

    /** Valid, but that the free list has moved on. */
    ghost predicate TrackedBut()
      reads this, heap
    {
      && heap.maxheap <= U32 - 8 && 0 < heap.memlist < heap.minheap
      && TrackOK(t, init, heap.minheap, heap.maxheap)
      && 0 <= currpid < |heads| == |t.lists|
      && (forall p :: 0 <= p < |heads| ==> ListAt(p))
      && HeadsOK(heads, heap.minheap)
    }

    /** meminsert: make a node for the block at `memptr` and link it in behind the header node. */
    method MemInsert(hdptr: int, memptr: int) returns (wild: bool, ghost depth: nat)
      requires heap.Valid() && hdptr in next && memptr in heap.mlength && KeptLength(heap.free, memptr, heap.memlist)
      requires
        var h := FreeLists.GetMem(heap.free, NODESIZE);
        h.Granted? ==> h.block.addr != hdptr && h.block.addr != SYSERR
      modifies this, heap
      decreases 1, 0
      ensures heap.Valid() && t == old(t) && currpid == old(currpid) && depth <= 1
      ensures wild <==> FreeLists.GetMem(old(heap.free), NODESIZE).Refused?
      ensures
        var h := FreeLists.GetMem(old(heap.free), NODESIZE);
        !wild ==>
        && !memblockkflag
        && heap.free == h.rest
        && next == old(next)[h.block.addr := old(next)[hdptr]][hdptr := h.block.addr]
        && memblockptr == old(memblockptr)[h.block.addr := memptr]
        && memlen == old(memlen)[h.block.addr := old(heap.mlength)[memptr]]
    {
      hide Linked, Loose, KeptLength, Covers;
      memblockkflag := true;
      var newnode;
      wild, newnode, depth := GetMem(NODESIZE);
      if newnode == SYSERR { return true, depth; }
      memblockptr := memblockptr[newnode := memptr];
      memlen := memlen[newnode := heap.mlength[memptr]];
      next := next[newnode := NULL];
      if next[hdptr] == NULL {
        next := next[hdptr := newnode];
      } else {
        next := next[newnode := next[hdptr]];
        next := next[hdptr := newnode];
      }
    }

    ghost predicate Same(next0: map<int, int>, ptr0: map<int, int>, len0: map<int, int>, t0: Tracked)
      reads this
    {
      next == next0 && memblockptr == ptr0 && memlen == len0 && t == t0
    }
  }

  /** The address of the block that is cut heads no block of the list that is left. */
  lemma CutClear(mnext: map<int, int>, mlength: map<int, int>, memlist: int, free: seq<Block>, i: int, n: int)
    requires Linked(mnext, mlength, memlist, free) && 0 <= i < |free| && n > 0
    ensures
      var r := free[..i] + free[i + 1..];
      forall k :: 0 <= k < |r| ==> r[k].addr != free[i].addr
    ensures
      var r := free[..i] + [Block(free[i].addr + n, free[i].len - n)] + free[i + 1..];
      forall k :: 0 <= k < |r| ==> r[k].addr != free[i].addr
  {
    NodesAscend(mnext, mlength, memlist, free, i);
  }

  /** What meminsert relies on: the header node and the new node differ, and the length word of the block stays
      as it is while the node is allocated. */
  lemma BeforeInsert(t: Tracked, init: seq<Block>, lo: int, hi: int, heads: seq<int>, p: int, nbytes: int, memlist: int)
    requires TrackOK(t, init, lo, hi) && Sane(nbytes) && FreeLists.GetMem(t.heap.free, nbytes).Granted?
    requires HeadsOK(heads, lo) && 0 <= p < |heads| && memlist < lo && hi <= U32 - 8
    ensures
      var g := FreeLists.GetMem(t.heap.free, nbytes);
      var h := FreeLists.GetMem(g.rest, NODESIZE);
      && KeptLength(g.rest, g.block.addr, memlist)
      && (h.Granted? ==> h.block.addr != heads[p] && lo <= h.block.addr && h.block.addr != SYSERR)
  {
    hide GetMem, Sound, Canonical, RoundMb, Covers, TrackOK;
    var g := FreeLists.GetMem(t.heap.free, nbytes);
    TrackSound(t, init, lo, hi);
    SoundCanonical(t.heap, init, lo, hi);
    GetMemGood(t.heap.free, nbytes, lo, hi);
    GrantApart(t.heap.free, RoundMb(nbytes), g, lo, hi);
    GrantCanonical(t.heap.free, RoundMb(nbytes), g, lo, hi);
    GetMemGood(g.rest, NODESIZE, lo, hi);
    if FreeLists.GetMem(g.rest, NODESIZE).Granted? {
      GrantApart(g.rest, RoundMb(NODESIZE), FreeLists.GetMem(g.rest, NODESIZE), lo, hi);
      GrantLens(t.heap.free, RoundMb(nbytes), g, g.rest, RoundMb(NODESIZE), FreeLists.GetMem(g.rest, NODESIZE), lo, hi);
      SaneRounds(NODESIZE);
    }
  }

  lemma TrackSound(t: Tracked, init: seq<Block>, lo: int, hi: int)
    requires TrackOK(t, init, lo, hi)
    ensures Sound(t.heap, init, lo, hi)
  {
  }

  lemma GrantCanonical(free: seq<Block>, n: int, g: Grant, lo: int, hi: int)
    requires g.Granted? && GoodGrant(free, n, g, lo, hi)
    ensures Canonical(g.rest, lo, hi)
  {
  }

  lemma GrantApart(free: seq<Block>, n: int, g: Grant, lo: int, hi: int)
    requires g.Granted? && GoodGrant(free, n, g, lo, hi)
    ensures lo <= g.block.addr && g.block.addr + g.block.len <= hi && !Covers(g.rest, g.block.addr)
  {
    hide Covers, Canonical;
    assert Inside(g.block, g.block.addr);
  }

  lemma HeadIn(next: map<int, int>, memblockptr: map<int, int>, memlen: map<int, int>, head: int, list: seq<Entry>)
    requires Chained(next, memblockptr, memlen, head, list)
    ensures head in next
  {
    assert NextAt(next, head, list, 0);
  }

  /** Neither node nor header of any list is where the new node is, and the header of `p` is on no list of another
      process. */
  lemma NodesOff(t: Tracked, init: seq<Block>, lo: int, hi: int, heads: seq<int>, p: int, nbytes: int, q: int)
    requires TrackOK(t, init, lo, hi) && Sane(nbytes) && Grants(t.heap.free, nbytes) && HeadsOK(heads, lo)
    requires 0 <= p < |heads| == |t.lists| && 0 <= q < |heads| && 0 < lo
    ensures
      var h := FreeLists.GetMem(FreeLists.GetMem(t.heap.free, nbytes).rest, NODESIZE);
      Off(heads[q], t.lists[q], h.block.addr) && h.block.addr > 0
    ensures forall i :: 0 <= i < |t.lists[q]| ==> t.lists[q][i].node != heads[p]
    ensures q != p ==> heads[q] != heads[p]
  {
    hide GetMem, Sound, Canonical, Covers, GoodGrant;
    var g := GetMem(t.heap.free, nbytes);
    var h := GetMem(g.rest, NODESIZE);
    AllocSteps(t, init, lo, hi, nbytes);
    GrantApart(g.rest, NODELEN, h, lo, hi);
    var s1 := State(g.rest, t.heap.out + [g.block]);
    forall i | 0 <= i < |t.lists[q]| ensures t.lists[q][i].node != h.block.addr && t.lists[q][i].node != heads[p] {
      assert EntryOK(t, q, i);
      var b := Block(t.lists[q][i].node, NODELEN);
      assert OutIff(t, b);
      OutCovers(t.heap, init, lo, hi, b);
      FreshAddr(s1, init, lo, hi, NODELEN, h, b);
    }
  }

  /** The lists in memory once the node is linked in for process `p`. */
  lemma OneInserted(t: Tracked, init: seq<Block>, lo: int, hi: int, heads: seq<int>, next: map<int, int>,
                    memblockptr: map<int, int>, memlen: map<int, int>, p: int, nbytes: int, q: int)
    requires TrackOK(t, init, lo, hi) && Sane(nbytes) && Grants(t.heap.free, nbytes) && HeadsOK(heads, lo)
    requires 0 <= p < |heads| == |t.lists| && 0 <= q < |heads| && 0 < lo
    requires Chained(next, memblockptr, memlen, heads[q], t.lists[q])
              && Chained(next, memblockptr, memlen, heads[p], t.lists[p])
    ensures heads[p] in next
    ensures
      var g := FreeLists.GetMem(t.heap.free, nbytes);
      var h := FreeLists.GetMem(g.rest, NODESIZE);
      var e := Entry(h.block.addr, g.block.addr, g.block.len);
      Chained(next[e.node := next[heads[p]]][heads[p] := e.node], memblockptr[e.node := e.ptr],
              memlen[e.node := e.len], heads[q],
              if q == p then [e] + t.lists[q] else t.lists[q])
  {
    hide GetMem, TrackOK, HeadsOK, Chained;
    var g := GetMem(t.heap.free, nbytes);
    var h := GetMem(g.rest, NODESIZE);
    var e := Entry(h.block.addr, g.block.addr, g.block.len);
    HeadIn(next, memblockptr, memlen, heads[p], t.lists[p]);
    NodesOff(t, init, lo, hi, heads, p, nbytes, q);
    if q == p {
      ChainedPush(next, memblockptr, memlen, heads[p], t.lists[p], e);
    } else {
      ChainedWords(next, memblockptr, memlen, heads[q], t.lists[q], e.node, e.ptr, e.len);
      ChainedFrame(next, memblockptr[e.node := e.ptr], memlen[e.node := e.len], heads[q], t.lists[q], e.node,
          next[heads[p]]);
      ChainedFrame(next[e.node := next[heads[p]]], memblockptr[e.node := e.ptr], memlen[e.node := e.len], heads[q],
          t.lists[q], heads[p], e.node);
    }
  }

  lemma ChainAt(next: map<int, int>, memblockptr: map<int, int>, memlen: map<int, int>, head: int, list: seq<Entry>,
                i: int)
    requires Chained(next, memblockptr, memlen, head, list) && 0 <= i <= |list|
    ensures NodeBefore(head, list, i) in next
              && next[NodeBefore(head, list, i)] == if i < |list| then list[i].node else NULL
    ensures i < |list| ==> list[i].node > 0 && list[i].node in memblockptr && memblockptr[list[i].node] == list[i].ptr
  {
    assert NextAt(next, head, list, i);
    if i < |list| { assert WordsAt(memblockptr, memlen, list, i); }
  }

  lemma EntryInHeap(t: Tracked, init: seq<Block>, lo: int, hi: int, p: int, k: int)
    requires TrackOK(t, init, lo, hi) && 0 <= p < |t.lists| && 0 <= k < |t.lists[p]|
    ensures lo <= t.lists[p][k].ptr && t.lists[p][k].len > 0 && t.lists[p][k].ptr + t.lists[p][k].len <= hi
  {
    hide Sound;
    assert EntryOK(t, p, k);
    OutCovers(t.heap, init, lo, hi, BlockOf(t.lists[p][k]));
  }

  /** Taking off the entry that came in front leaves the lists there were. */
  lemma FirstEntry(was: seq<seq<Entry>>, lists: seq<seq<Entry>>, p: int)
    requires 0 <= p < |was| && |lists| == |was| && lists == was[p := lists[p]] && lists[p] != []
              && lists[p][1..] == was[p]
    ensures Found(lists[p], lists[p][0].ptr) == 0 && WithoutEntry(lists, p, 0) == was
  {
    assert lists[p][..0] + lists[p][1..] == was[p];
  }

  /** What memextract relies on: nodes and blocks of a list differ, and no node is a header. */
  lemma OnList(t: Tracked, init: seq<Block>, lo: int, hi: int, heads: seq<int>, p: int, k: int)
    requires TrackOK(t, init, lo, hi) && HeadsOK(heads, lo) && 0 <= p < |heads| == |t.lists| && 0 <= k < |t.lists[p]|
              && hi <= U32 - 8
    ensures var list := t.lists[p]; forall i, j :: 0 <= i < j < |list| ==>
              list[i].node != list[j].node && list[i].ptr != list[j].ptr
    ensures forall i :: 0 <= i < |t.lists[p]| ==> t.lists[p][i].node != heads[p]
    ensures lo <= t.lists[p][k].ptr && t.lists[p][k].len > 0 && t.lists[p][k].ptr + t.lists[p][k].len < U32
  {
    hide Sound;
    var list := t.lists[p];
    forall i, j | 0 <= i < j < |list| ensures list[i].node != list[j].node && list[i].ptr != list[j].ptr {
      assert Distinct(t.lists, p, i, p, j);
    }
    forall i | 0 <= i < |list| ensures list[i].node != heads[p] { NodeInHeap(t, init, lo, hi, p, i); }
    assert EntryOK(t, p, k);
    OutCovers(t.heap, init, lo, hi, BlockOf(list[k]));
  }

  lemma NodeInHeap(t: Tracked, init: seq<Block>, lo: int, hi: int, p: int, i: int)
    requires TrackOK(t, init, lo, hi) && 0 <= p < |t.lists| && 0 <= i < |t.lists[p]|
    ensures t.lists[p][i].node >= lo
  {
    hide Sound;
    assert EntryOK(t, p, i);
    var b := Block(t.lists[p][i].node, NODELEN);
    assert OutIff(t, b);
    OutCovers(t.heap, init, lo, hi, b);
  }

  /** The lists in memory once entry `k` of process `p` is unlinked. */
  lemma OneExtracted(t: Tracked, init: seq<Block>, lo: int, hi: int, heads: seq<int>, next: map<int, int>,
                     memblockptr: map<int, int>, memlen: map<int, int>, p: int, k: int, q: int)
    requires TrackOK(t, init, lo, hi) && HeadsOK(heads, lo) && 0 <= p < |heads| == |t.lists| && 0 <= q < |heads|
              && 0 <= k < |t.lists[p]|
    requires Chained(next, memblockptr, memlen, heads[q], t.lists[q])
              && Chained(next, memblockptr, memlen, heads[p], t.lists[p])
    requires hi <= U32 - 8
    ensures t.lists[p][k].node in next
    ensures Chained(next[NodeBefore(heads[p], t.lists[p], k) := next[t.lists[p][k].node]], memblockptr, memlen,
                    heads[q],
                    if q == p then t.lists[p][..k] + t.lists[p][k + 1..] else t.lists[q])
  {
    hide Chained, Sound;
    OnList(t, init, lo, hi, heads, p, k);
    ChainedDrop(next, memblockptr, memlen, heads[p], t.lists[p], k);
    if q != p {
      var a := NodeBefore(heads[p], t.lists[p], k);
      forall i | 0 <= i < |t.lists[q]| ensures t.lists[q][i].node != a {
        NodeInHeap(t, init, lo, hi, q, i);
        if k > 0 { assert Distinct(t.lists, q, i, p, k - 1); }
      }
      if k > 0 { NodeInHeap(t, init, lo, hi, p, k - 1); }
      ChainedFrame(next, memblockptr, memlen, heads[q], t.lists[q], a, next[t.lists[p][k].node]);
    }
  }

  lemma CutCovered(free: seq<Block>, i: int, n: int)
    requires 0 <= i < |free| && 0 < n <= free[i].len
    ensures Covers(free, free[i].addr) && (n < free[i].len ==> Covers(free, free[i].addr + n))
  {
    assert Inside(free[i], free[i].addr);
    if n < free[i].len { assert Inside(free[i], free[i].addr + n); }
  }

  /** Length words outside the free blocks keep their values. */
  ghost predicate LengthsKept(m: map<int, int>, m': map<int, int>, free: seq<Block>, memlist: int) {
    forall a :: a in m && KeptLength(free, a, memlist) ==> a in m' && m'[a] == m[a]
  }

  lemma LengthsSelf(m: map<int, int>, free: seq<Block>, memlist: int)
    ensures LengthsKept(m, m, free, memlist)
  {
  }

  /** Neither the count of free bytes nor a word inside a free block. */
  ghost predicate KeptLength(free: seq<Block>, a: int, memlist: int) {
    a != memlist && !Covers(free, a)
  }

  /** The header nodes are different words below the heap. */
  ghost predicate HeadsOK(heads: seq<int>, minheap: int) {
    && (forall p :: 0 <= p < |heads| ==> 0 < heads[p] && heads[p] + NODELEN <= minheap)
    && (forall p, q :: 0 <= p < q < |heads| ==> heads[p] != heads[q])
  }
}
