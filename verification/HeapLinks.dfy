/** The code of the allocator: free blocks linked through memory.  A block header is the pair of words
    `mnext`, `mlength` at the address of the block; the header at address `memlist` heads the list and holds
    the number of free bytes. */
module HeapLinks {
  import opened FreeLists
  import opened HeapBoot

  const NULL := 0
  const SYSERR := U32 - 1

  /** What getmem returns to its caller. */
  function Address(g: Grant): int {
    if g.Granted? then g.block.addr else SYSERR
  }

  /** What getstk returns to its caller. */
  function TopAddress(g: Grant): int {
    if g.Granted? then StackTop(g.block) else SYSERR
  }

  /** The free list after a request. */
  function Left(free: seq<Block>, g: Grant): seq<Block> {
    if g.Granted? then g.rest else free
  }

  /** The address of the block at position `i`, or NULL past the end. */
  function AddrAt(free: seq<Block>, i: int): int
    requires 0 <= i <= |free|
  {
    if i < |free| then free[i].addr else NULL
  }

  /** The address of the header that points to position `i`. */
  function NodeAt(memlist: int, free: seq<Block>, i: int): int
    requires 0 <= i <= |free|
  {
    if i == 0 then memlist else free[i - 1].addr
  }

  ghost predicate LinkAt(mnext: map<int, int>, memlist: int, free: seq<Block>, i: int)
    requires 0 <= i <= |free|
  {
    var p := NodeAt(memlist, free, i);
    p in mnext && mnext[p] == AddrAt(free, i)
  }

  ghost predicate LengthAt(mlength: map<int, int>, free: seq<Block>, i: int)
    requires 0 <= i < |free|
  {
    free[i].addr in mlength && mlength[free[i].addr] == free[i].len
  }

  ghost predicate Before(b: Block, c: Block) {
    b.addr < c.addr
  }

  /** The headers in memory spell out the list `free`, in ascending order and above the list head. */
  ghost predicate Linked(mnext: map<int, int>, mlength: map<int, int>, memlist: int, free: seq<Block>) {
    && 0 < memlist
    && (forall i :: 0 <= i < |free| ==> memlist < free[i].addr)
    && (forall i, j :: 0 <= i < j < |free| ==> Before(free[i], free[j]))
    && (forall i :: 0 <= i <= |free| ==> LinkAt(mnext, memlist, free, i))
    && (forall i :: 0 <= i < |free| ==> LengthAt(mlength, free, i))
  }

  lemma LinkedAt(mnext: map<int, int>, mlength: map<int, int>, memlist: int, free: seq<Block>, i: int)
    requires Linked(mnext, mlength, memlist, free) && 0 <= i <= |free|
    ensures NodeAt(memlist, free, i) in mnext && mnext[NodeAt(memlist, free, i)] == AddrAt(free, i)
    ensures i < |free| ==>
              && free[i].addr in mlength && mlength[free[i].addr] == free[i].len
              && free[i].addr in mnext && mnext[free[i].addr] == AddrAt(free, i + 1)
              && free[i].addr > memlist
    ensures 0 < memlist
  {
    assert LinkAt(mnext, memlist, free, i);
    if i < |free| { assert LengthAt(mlength, free, i) && LinkAt(mnext, memlist, free, i + 1); }
  }

  /** Pointing past block `i` takes it off the list. */
  lemma LinkDrop(mnext: map<int, int>, mlength: map<int, int>, memlist: int, free: seq<Block>, i: int)
    requires Linked(mnext, mlength, memlist, free) && 0 <= i < |free|
    ensures free[i].addr in mnext
    ensures Linked(mnext[NodeAt(memlist, free, i) := mnext[free[i].addr]], mlength, memlist, free[..i] + free[i + 1..])
  {
    LinkedAt(mnext, mlength, memlist, free, i);
    var t := free[..i] + free[i + 1..];
    var m := mnext[NodeAt(memlist, free, i) := mnext[free[i].addr]];
    forall k | 0 <= k < |t| ensures t[k] == if k < i then free[k] else free[k + 1] { }
    forall k | 0 <= k < |t| ensures LengthAt(mlength, t, k) {
      assert LengthAt(mlength, free, if k < i then k else k + 1);
    }
    forall k, l | 0 <= k < l < |t| ensures Before(t[k], t[l]) {
      assert Before(free[if k < i then k else k + 1], free[if l < i then l else l + 1]);
    }
    forall k | 0 <= k <= |t| ensures LinkAt(m, memlist, t, k) {
      var o := if k <= i then k else k + 1;
      assert LinkAt(mnext, memlist, free, o);
      if k < i { assert k > 0 ==> Before(free[k - 1], free[i]); }
      if 0 < k < i { assert Before(free[k - 1], free[i - 1]); }
      if k > i && i > 0 { assert Before(free[i - 1], free[k]); }
    }
  }

  /** Changing the length word of block `i`. */
  lemma LinkResize(mnext: map<int, int>, mlength: map<int, int>, memlist: int, free: seq<Block>, i: int, len: int)
    requires Linked(mnext, mlength, memlist, free) && 0 <= i < |free|
    ensures Linked(mnext, mlength[free[i].addr := len], memlist, free[i := Block(free[i].addr, len)])
  {
    var t := free[i := Block(free[i].addr, len)];
    var m := mlength[free[i].addr := len];
    forall k | 0 <= k < |t| ensures t[k].addr == free[k].addr && LengthAt(m, t, k) {
      assert LengthAt(mlength, free, k);
      if k < i { assert Before(free[k], free[i]); }
      if i < k { assert Before(free[i], free[k]); }
    }
    forall k, l | 0 <= k < l < |t| ensures Before(t[k], t[l]) { assert Before(free[k], free[l]); }
    forall k | 0 <= k <= |t| ensures LinkAt(mnext, memlist, t, k) { assert LinkAt(mnext, memlist, free, k); }
  }

  /** Linking a new block `b` between positions `i - 1` and `i`. */
  lemma LinkInsert(mnext: map<int, int>, mlength: map<int, int>, memlist: int, free: seq<Block>, i: int, b: Block)
    requires Linked(mnext, mlength, memlist, free) && 0 <= i <= |free| && memlist < b.addr
    requires forall k :: 0 <= k < i ==> free[k].addr < b.addr
    requires forall k :: i <= k < |free| ==> b.addr < free[k].addr
    ensures Linked(mnext[b.addr := AddrAt(free, i)][NodeAt(memlist, free, i) := b.addr], mlength[b.addr := b.len],
                   memlist, free[..i] + [b] + free[i..])
  {
    hide Linked;
    var t := free[..i] + [b] + free[i..];
    InsertAscends(mnext, mlength, memlist, free, i, b);
    InsertLengths(mnext, mlength, memlist, free, i, b);
    InsertLinks(mnext, mlength, memlist, free, i, b);
    LinkedFrom(mnext[b.addr := AddrAt(free, i)][NodeAt(memlist, free, i) := b.addr], mlength[b.addr := b.len], memlist,
        t);
  }

  lemma LinkedFrom(mnext: map<int, int>, mlength: map<int, int>, memlist: int, free: seq<Block>)
    requires 0 < memlist
    requires forall i :: 0 <= i < |free| ==> memlist < free[i].addr
    requires forall i, j :: 0 <= i < j < |free| ==> Before(free[i], free[j])
    requires forall i :: 0 <= i <= |free| ==> LinkAt(mnext, memlist, free, i)
    requires forall i :: 0 <= i < |free| ==> LengthAt(mlength, free, i)
    ensures Linked(mnext, mlength, memlist, free)
  {
  }

  lemma InsertAscends(mnext: map<int, int>, mlength: map<int, int>, memlist: int, free: seq<Block>, i: int, b: Block)
    requires Linked(mnext, mlength, memlist, free) && 0 <= i <= |free| && memlist < b.addr
    requires forall k :: 0 <= k < i ==> free[k].addr < b.addr
    requires forall k :: i <= k < |free| ==> b.addr < free[k].addr
    ensures
      var t := free[..i] + [b] + free[i..];
      && 0 < memlist && (forall k :: 0 <= k < |t| ==> memlist < t[k].addr)
      && (forall k, l :: 0 <= k < l < |t| ==> Before(t[k], t[l]))
  {
    var t := free[..i] + [b] + free[i..];
    forall k | 0 <= k < |t| ensures t[k] == if k < i then free[k] else if k == i then b else free[k - 1] { }
    forall k, l | 0 <= k < l < |t| ensures Before(t[k], t[l]) {
      if k != i && l != i { assert Before(free[if k < i then k else k - 1], free[if l < i then l else l - 1]); }
    }
  }

  lemma InsertLengths(mnext: map<int, int>, mlength: map<int, int>, memlist: int, free: seq<Block>, i: int, b: Block)
    requires Linked(mnext, mlength, memlist, free) && 0 <= i <= |free|
    requires forall k :: 0 <= k < |free| ==> free[k].addr != b.addr
    ensures var t := free[..i] + [b] + free[i..]; var n := mlength[b.addr := b.len]; forall k :: 0 <= k < |t| ==>
              LengthAt(n, t, k)
  {
    var t := free[..i] + [b] + free[i..];
    var n := mlength[b.addr := b.len];
    forall k | 0 <= k < |t| ensures LengthAt(n, t, k) {
      if k != i { assert LengthAt(mlength, free, if k < i then k else k - 1); }
    }
  }

  lemma InsertLinks(mnext: map<int, int>, mlength: map<int, int>, memlist: int, free: seq<Block>, i: int, b: Block)
    requires Linked(mnext, mlength, memlist, free) && 0 <= i <= |free| && memlist < b.addr
    requires forall k :: 0 <= k < |free| ==> free[k].addr != b.addr
    ensures
      var t := free[..i] + [b] + free[i..];
      var m := mnext[b.addr := AddrAt(free, i)][NodeAt(memlist, free, i) := b.addr];
      forall k :: 0 <= k <= |t| ==> LinkAt(m, memlist, t, k)
  {
    var t := free[..i] + [b] + free[i..];
    var m := mnext[b.addr := AddrAt(free, i)][NodeAt(memlist, free, i) := b.addr];
    forall k | 0 <= k <= |t| ensures LinkAt(m, memlist, t, k) {
      if k < i {
        assert LinkAt(mnext, memlist, free, k);
        if k > 0 { assert Before(free[k - 1], free[i - 1]); }
      } else if k > i + 1 {
        assert LinkAt(mnext, memlist, free, k - 1);
        if i > 0 { assert Before(free[i - 1], free[k - 2]); }
      }
    }
  }

  /** Moving the start of block `i` up to `b.addr`, as a split does. */
  lemma LinkAdvance(mnext: map<int, int>, mlength: map<int, int>, memlist: int, free: seq<Block>, i: int, b: Block)
    requires Linked(mnext, mlength, memlist, free) && 0 <= i < |free| && free[i].addr <= b.addr
    requires forall k :: i < k < |free| ==> b.addr < free[k].addr
    ensures free[i].addr in mnext
    ensures
      var m := mnext[NodeAt(memlist, free, i) := b.addr];
      && free[i].addr in m
      && Linked(m[b.addr := m[free[i].addr]], mlength[b.addr := b.len], memlist, free[..i] + [b] + free[i + 1..])
  {
    hide Linked;
    LinkedAt(mnext, mlength, memlist, free, i);
    LinkDrop(mnext, mlength, memlist, free, i);
    var t := free[..i] + free[i + 1..];
    var d := mnext[NodeAt(memlist, free, i) := mnext[free[i].addr]];
    NodesAscend(mnext, mlength, memlist, free, i);
    LinkInsert(d, mlength, memlist, t, i, b);
    assert t[..i] + [b] + t[i..] == free[..i] + [b] + free[i + 1..];
    var m := mnext[NodeAt(memlist, free, i) := b.addr];
    assert AddrAt(t, i) == AddrAt(free, i + 1) == m[free[i].addr];
    assert NodeAt(memlist, t, i) == NodeAt(memlist, free, i);
    assert d[b.addr := AddrAt(t, i)][NodeAt(memlist, t, i) := b.addr] == m[b.addr := m[free[i].addr]];
  }

  lemma NodesAscend(mnext: map<int, int>, mlength: map<int, int>, memlist: int, free: seq<Block>, i: int)
    requires Linked(mnext, mlength, memlist, free) && 0 <= i < |free|
    ensures forall k :: 0 <= k < i ==> free[k].addr < free[i].addr
    ensures forall k :: i < k < |free| ==> free[i].addr < free[k].addr
    ensures NodeAt(memlist, free, i) < free[i].addr
  {
    forall k | 0 <= k < i ensures free[k].addr < free[i].addr { assert Before(free[k], free[i]); }
    forall k | i < k < |free| ensures free[i].addr < free[k].addr { assert Before(free[i], free[k]); }
  }

  class Allocator {
    const memlist: int
    const minheap: int
    const maxheap: int
    var mnext: map<int, int>
    var mlength: map<int, int>
    ghost var free: seq<Block>

    /** The memory holds the list `free`, and the head counts its bytes. */
    ghost predicate Valid()
      reads this
    {
      && 0 < memlist < minheap <= maxheap < U32
      && Loose(free)
      && Linked(mnext, mlength, memlist, free)
      && memlist in mlength && mlength[memlist] == Total(free)
    }

    /** meminit: the usable regions of the memory map behind the image are linked one after the other. */
    constructor (head: int, image: int, mmap: seq<Region>)
      requires 0 < head < image <= U32 - 8 && GoodMap(mmap) && Clean(mmap, image)
      ensures Valid() && free == BootList(mmap, image)
      ensures memlist == head && minheap == image && maxheap == MaxHeap(mmap, image)
    {
      hide Linked, Total, GoodMap, Clean, Ordered, RoundMb, TruncMb;
      var memptr := head;
      var next, length := map[head := NULL], map[head := 0];
      var top := image;
      EmptyLinked(head);
      for i := 0 to |mmap|
        invariant top == MaxHeap(mmap[..i], image)
        invariant var blocks := BootList(mmap[..i], image);
                  && memptr == NodeAt(head, blocks, |blocks|)
                  && Linked(next[memptr := NULL], length, head, blocks)
                  && head in length && length[head] == Total(blocks)
      {
        assert mmap[..i + 1][..i] == mmap[..i];
        ghost var blocks := BootList(mmap[..i], image);
        assert blocks + [] == blocks;
        var r := mmap[i];
        if r.usable {
          if top < r.base + r.length { top := r.base + r.length; }
          if !(r.base + r.length < image) {
            var b := if r.base <= image && r.base + r.length > image
                     then Block(RoundMb(image), TruncMb(r.base + r.length - image))
                     else Block(RoundMb(r.base), TruncMb(r.length));
            assert BootList(mmap[..i + 1], image) == blocks + [b];
            CleanPart(mmap, image, i + 1);
            OrderedIsLoose(blocks + [b], image, MaxHeap(mmap[..i + 1], image));
            assert (blocks + [b])[|blocks|] == b;
            LinkAppend(next, length, head, blocks, memptr, b);
            next := next[memptr := b.addr];
            memptr := b.addr;
            length := length[memptr := b.len];
            length := length[head := length[head] + b.len];
          }
        }
      }
      assert mmap[..|mmap|] == mmap;
      next := next[memptr := NULL];
      MaxHeapBounds(mmap, image);
      CleanPart(mmap, image, |mmap|);
      OrderedIsLoose(BootList(mmap, image), image, top);
      memlist, minheap, maxheap := head, image, top;
      mnext, mlength := next, length;
      free := BootList(mmap, image);
    }

    /** Unlink block `i`, at `curr`, and take its `n` bytes off the count. */
    method TakeWhole(prev: int, curr: int, n: int, ghost i: int)
      requires Valid() && 0 <= i < |free|
      requires prev == NodeAt(memlist, free, i) && curr == free[i].addr && n == free[i].len
      modifies this
      ensures Valid() && free == old(free)[..i] + old(free)[i + 1..]
      ensures mlength == old(mlength)[memlist := mlength[memlist]]
    {
      hide Loose, Linked, Total;
      LooseCut(free, i, []);
      LinkedAt(mnext, mlength, memlist, free, i);
      LinkDrop(mnext, mlength, memlist, free, i);
      mnext := mnext[prev := mnext[curr]];
      free := free[..i] + free[i + 1..];
      LinkCount(mnext, mlength, memlist, free, mlength[memlist] - n);
      mlength := mlength[memlist := mlength[memlist] - n];
    }

    /** Split block `i`, at `curr`: its first `n` bytes leave the list. */
    method TakeLow(prev: int, curr: int, n: int, ghost i: int)
      requires Valid() && 0 <= i < |free|
      requires prev == NodeAt(memlist, free, i) && curr == free[i].addr && 0 <= n < free[i].len
      modifies this
      ensures Valid() && free == old(free)[..i] + [Block(curr + n, old(free)[i].len - n)] + old(free)[i + 1..]
      ensures curr + n in mlength && mlength == old(mlength)[curr + n := mlength[curr + n]][memlist := mlength[memlist]]
    {
      hide Loose, Linked, Total;
      LinkedAt(mnext, mlength, memlist, free, i);
      var leftover := curr + n;
      ghost var rest := Block(leftover, mlength[curr] - n);
      LooseCut(free, i, [rest]);
      SplitClear(free, i, n);
      LinkAdvance(mnext, mlength, memlist, free, i, rest);
      mnext := mnext[prev := leftover];
      mnext := mnext[leftover := mnext[curr]];
      mlength := mlength[leftover := mlength[curr] - n];
      free := free[..i] + [rest] + free[i + 1..];
      LinkCount(mnext, mlength, memlist, free, mlength[memlist] - n);
      mlength := mlength[memlist := mlength[memlist] - n];
    }

    /** Shrink block `i`, at `fits`, by the `n` bytes at its top. */
    method TakeHigh(fits: int, n: int, ghost i: int)
      requires Valid() && 0 <= i < |free| && fits == free[i].addr && 0 <= n < free[i].len
      modifies this
      ensures Valid() && free == old(free)[..i] + [Block(fits, old(free)[i].len - n)] + old(free)[i + 1..]
      ensures fits in mlength && mlength[fits] == old(free)[i].len - n
    {
      hide Loose, Linked, Total;
      LinkedAt(mnext, mlength, memlist, free, i);
      ghost var rest := Block(fits, mlength[fits] - n);
      LooseCut(free, i, [rest]);
      LinkResize(mnext, mlength, memlist, free, i, mlength[fits] - n);
      mlength := mlength[fits := mlength[fits] - n];
      assert free[i := rest] == free[..i] + [rest] + free[i + 1..];
      free := free[..i] + [rest] + free[i + 1..];
      LinkCount(mnext, mlength, memlist, free, mlength[memlist] - n);
      mlength := mlength[memlist := mlength[memlist] - n];
    }

    /** Writing the length word of a block that is not on the list. */
    method SetLength(a: int, n: int)
      requires Valid() && a != memlist && forall i :: 0 <= i < |free| ==> free[i].addr != a
      modifies this`mlength
      ensures Valid() && mlength == old(mlength)[a := n]
    {
      hide Loose, Total;
      LengthElsewhere(mnext, mlength, memlist, free, a, n);
      mlength := mlength[a := n];
    }

    /** The search loop of getmem: the first block that fits and the header before it. */
    method FindFirst(n: int) returns (prev: int, curr: int)
      requires Valid()
      ensures var i := FirstFit(free, n); prev == NodeAt(memlist, free, i) && curr == AddrAt(free, i)
    {
      hide Loose, Linked, Total;
      ghost var i := 0;
      LinkedAt(mnext, mlength, memlist, free, 0);
      prev, curr := memlist, mnext[memlist];
      while curr != NULL && mlength[curr] < n
        invariant 0 <= i <= |free| && prev == NodeAt(memlist, free, i) && curr == AddrAt(free, i)
        invariant curr != NULL ==> i < |free| && curr in mlength && mlength[curr] == free[i].len
        invariant forall k :: 0 <= k < i ==> free[k].len < n
        decreases |free| - i
      {
        LinkedAt(mnext, mlength, memlist, free, i);
        prev, curr := curr, mnext[curr];
        i := i + 1;
        LinkedAt(mnext, mlength, memlist, free, i);
      }
      LinkedAt(mnext, mlength, memlist, free, i);
      assert i == FirstFit(free, n);
    }

    /** getmem, compiled without the bookkeeping of blocks in use: an exact match is unlinked, a larger block
        is split. */
    method GetMem(nbytes: int) returns (r: int)
      requires Valid() && 0 <= nbytes < U32
      modifies this
      ensures Valid()
      ensures r == Address(FreeLists.GetMem(old(free), nbytes))
      ensures free == Left(old(free), FreeLists.GetMem(old(free), nbytes))
    {
      hide Loose, Linked, Total, RoundMb, FirstFit, NodeAt, FreeLists.GetMem;
      GetMemIs(free, nbytes, RoundMb(nbytes), FirstFit(free, RoundMb(nbytes)));
      if nbytes == 0 { return SYSERR; }
      var n := RoundMb(nbytes);
      SaneRounds(nbytes);
      var prev, curr := FindFirst(n);
      ghost var i := FirstFit(free, n);
      LinkedAt(mnext, mlength, memlist, free, i);
      if curr == NULL { return SYSERR; }
      if mlength[curr] == n {
        TakeWhole(prev, curr, n, i);
        return curr;
      }
      TakeLow(prev, curr, n, i);
      r := curr;
    }

    /** The scan of getstk: the last block that fits and the header before it. */
    method ScanAll(n: int) returns (fits: int, fitsprev: int)
      requires Valid()
      ensures var f := LastFit(free, n);
              if f < 0 then fits == NULL else fits == free[f].addr > 0 && fitsprev == NodeAt(memlist, free, f)
    {
      hide Loose, Linked, Total;
      ghost var i := 0;
      ghost var f := -1;
      LinkedAt(mnext, mlength, memlist, free, 0);
      var prev, curr := memlist, mnext[memlist];
      fits, fitsprev := NULL, NULL;
      while curr != NULL
        invariant 0 <= i <= |free| && prev == NodeAt(memlist, free, i) && curr == AddrAt(free, i)
        invariant -1 <= f < i && (forall k :: f < k < i ==> free[k].len < n)
        invariant if f < 0 then fits == NULL
                  else fits == free[f].addr > 0 && fitsprev == NodeAt(memlist, free, f) && free[f].len >= n
        decreases |free| - i
      {
        LinkedAt(mnext, mlength, memlist, free, i);
        if mlength[curr] >= n {
          fits, fitsprev := curr, prev;
          f := i;
        }
        prev, curr := curr, mnext[curr];
        i := i + 1;
      }
      LinkedAt(mnext, mlength, memlist, free, i);
      assert f == LastFit(free, n);
    }

    /** getstk: take the top of the last block that fits. */
    method GetStk(nbytes: int) returns (r: int)
      requires Valid() && 0 <= nbytes < U32
      modifies this
      ensures Valid()
      ensures r == TopAddress(FreeLists.GetStk(old(free), nbytes))
      ensures free == Left(old(free), FreeLists.GetStk(old(free), nbytes))
    {
      hide Loose, Linked, Total, RoundMb, LastFit, NodeAt;
      if nbytes == 0 { return SYSERR; }
      var n := RoundMb(nbytes);
      SaneRounds(nbytes);
      var fits, fitsprev := ScanAll(n);
      if fits == NULL { return SYSERR; }
      ghost var f := LastFit(free, n);
      LinkedAt(mnext, mlength, memlist, free, f);
      if n == mlength[fits] {
        TakeWhole(fitsprev, fits, n, f);
        return fits + n - 4;
      }
      TakeHigh(fits, n, f);
      fits := fits + mlength[fits];
      r := fits + n - 4;
    }

    /** The walk of freemem: the last header below the address, and the block after it. */
    method WalkTo(blkaddr: int) returns (prev: int, next: int)
      requires Valid() && minheap <= blkaddr
      ensures var i := Below(free, blkaddr); prev == NodeAt(memlist, free, i) && next == AddrAt(free, i)
    {
      hide Loose, Linked, Total;
      ghost var i := 0;
      LinkedAt(mnext, mlength, memlist, free, 0);
      prev, next := memlist, mnext[memlist];
      while next != NULL && next < blkaddr
        invariant 0 <= i <= |free| && prev == NodeAt(memlist, free, i) && next == AddrAt(free, i)
        invariant forall k :: 0 <= k < i ==> free[k].addr < blkaddr
        decreases |free| - i
      {
        LinkedAt(mnext, mlength, memlist, free, i);
        prev, next := next, mnext[next];
        i := i + 1;
      }
      LinkedAt(mnext, mlength, memlist, free, i);
      assert i == Below(free, blkaddr);
    }

    /** The first half of freemem's coalescing: grow the previous block, or link a new one.  `at` is the
        position of the block the released range is now part of. */
    method PlaceBlock(prev: int, next: int, top: int, blkaddr: int, n: int, ghost i: int)
      returns (block: int, ghost mid: seq<Block>)
      requires Valid() && 0 <= i <= |free| && n > 0 && blkaddr >= minheap
      requires prev == NodeAt(memlist, free, i) && next == AddrAt(free, i)
      requires top == if i == 0 then NULL else free[i - 1].addr + free[i - 1].len
      requires forall k :: 0 <= k < i ==> free[k].addr < blkaddr
      requires forall k :: i <= k < |free| ==> blkaddr < free[k].addr
      modifies this`mnext, this`mlength
      ensures var p := MergeLow(free, i, Block(blkaddr, n));
              && Linked(mnext, mlength, memlist, mid)
              && mid == (if p < i then free[..p] + [Block(prev, free[p].len + n)] + free[i..]
                         else free[..i] + [Block(blkaddr, n)] + free[i..])
              && block == mid[p].addr
      ensures memlist in mlength && mlength[memlist] == Total(free) + n
    {
      hide Loose, Linked, Total;
      LinkedAt(mnext, mlength, memlist, free, i);
      LinkCount(mnext, mlength, memlist, free, mlength[memlist] + n);
      mlength := mlength[memlist := mlength[memlist] + n];
      block := blkaddr;
      if top == block {
        LinkedAt(mnext, mlength, memlist, free, i - 1);
        LinkResize(mnext, mlength, memlist, free, i - 1, mlength[prev] + n);
        mlength := mlength[prev := mlength[prev] + n];
        block := prev;
        mid := free[i - 1 := Block(prev, mlength[prev])];
      } else {
        LinkInsert(mnext, mlength, memlist, free, i, Block(block, n));
        mnext := mnext[block := next];
        mlength := mlength[block := n];
        mnext := mnext[prev := block];
        mid := free[..i] + [Block(block, n)] + free[i..];
      }
    }

    /** The second half: merge the block at position `p` of `mid` with the one after it, if adjacent. */
    method JoinNext(block: int, next: int, ghost mid: seq<Block>, ghost p: int) returns (ghost last: seq<Block>)
      requires Linked(mnext, mlength, memlist, mid) && 0 <= p < |mid| && block == mid[p].addr && mid[p].len > 0
      requires next == AddrAt(mid, p + 1)
      modifies this`mnext, this`mlength
      ensures Linked(mnext, mlength, memlist, last)
      ensures last == if p + 1 < |mid| && block + mid[p].len == mid[p + 1].addr
                      then mid[..p] + [Block(block, mid[p].len + mid[p + 1].len)] + mid[p + 2..] else mid
      ensures old(memlist in mlength) ==> memlist in mlength && mlength[memlist] == old(mlength[memlist])
    {
      hide Linked;
      last := mid;
      LinkedAt(mnext, mlength, memlist, mid, p);
      if block + mlength[block] == next {
        LinkedAt(mnext, mlength, memlist, mid, p + 1);
        LinkResize(mnext, mlength, memlist, mid, p, mlength[block] + mlength[next]);
        mlength := mlength[block := mlength[block] + mlength[next]];
        last := mid[p := Block(block, mlength[block])];
        LinkedAt(mnext, mlength, memlist, last, p + 1);
        LinkDrop(mnext, mlength, memlist, last, p + 1);
        mnext := mnext[block := mnext[next]];
        last := last[..p + 1] + last[p + 2..];
      }
    }

    /** freemem: true is OK.  Neither the rounded size nor the end of the released range may wrap past 2^32. */
    method FreeMem(blkaddr: int, nbytes: int) returns (ok: bool)
      requires Valid() && 0 <= blkaddr < U32
      requires nbytes == 0 || (Sane(nbytes) && blkaddr + RoundMb(nbytes) < U32)
      modifies this
      ensures Valid()
      ensures ok == FreeLists.FreeMem(old(free), blkaddr, nbytes, minheap, maxheap).Released?
      ensures free == if ok then FreeLists.FreeMem(old(free), blkaddr, nbytes, minheap, maxheap).free else old(free)
    {
      hide Loose, Linked, Total, Merge, RoundMb, Below;
      if nbytes == 0 || blkaddr < minheap || blkaddr > maxheap { return false; }
      SaneRounds(nbytes);
      var n := RoundMb(nbytes);
      var prev, next := WalkTo(blkaddr);
      ghost var i := Below(free, blkaddr);
      LinkedAt(mnext, mlength, memlist, free, i);
      if i > 0 { LinkedAt(mnext, mlength, memlist, free, i - 1); }
      var top := if prev == memlist then NULL else prev + mlength[prev];
      if (prev != memlist && blkaddr < top) || (next != NULL && blkaddr + n > next) { return false; }
      PutBack(prev, next, top, blkaddr, n, i);
      ok := true;
    }

    /** Coalesce the released range with its neighbours, or link it in. */
    method PutBack(prev: int, next: int, top: int, blkaddr: int, n: int, ghost i: int)
      requires Valid() && n > 0 && blkaddr >= minheap && i == Below(free, blkaddr)
      requires prev == NodeAt(memlist, free, i) && next == AddrAt(free, i)
      requires top == if i == 0 then NULL else free[i - 1].addr + free[i - 1].len
      requires top <= blkaddr && (i < |free| ==> blkaddr + n <= free[i].addr)
      modifies this
      ensures Valid() && free == Merge(old(free), i, Block(blkaddr, n))
    {
      hide Loose, Linked, Total, Merge, Below, Joined;
      ghost var b := Block(blkaddr, n);
      Placed(free, b, i);
      var block;
      ghost var mid, last;
      block, mid := PlaceBlock(prev, next, top, blkaddr, n, i);
      last := JoinNext(block, next, mid, MergeLow(free, i, b));
      MergeSteps(free, i, b, mid, last);
      free := last;
    }
  }

  /** getmem in terms of the block it takes from. */
  lemma GetMemIs(free: seq<Block>, nbytes: int, n: int, i: int)
    requires n == RoundMb(nbytes) && i == FirstFit(free, n)
    ensures nbytes == 0 || i == |free| ==> FreeLists.GetMem(free, nbytes) == Refused
    ensures nbytes != 0 && i < |free| && free[i].len == n ==>
              FreeLists.GetMem(free, nbytes) == Granted(Block(free[i].addr, n), free[..i] + free[i + 1..])
    ensures nbytes != 0 && i < |free| && free[i].len != n ==>
              FreeLists.GetMem(free, nbytes) ==
              Granted(Block(free[i].addr, n), free[..i] + [Block(free[i].addr + n, free[i].len - n)] + free[i + 1..])
  {
    hide RoundMb, FirstFit;
  }

  lemma EmptyLinked(head: int)
    requires 0 < head
    ensures Linked(map[head := NULL], map[head := 0], head, []) && map[head := NULL][head := NULL] == map[head := NULL]
    ensures Total([]) == 0
  {
    assert LinkAt(map[head := NULL], head, [], 0);
  }

  /** One more block at the end of the list, whose last link is yet to be written. */
  lemma LinkAppend(mnext: map<int, int>, mlength: map<int, int>, head: int, free: seq<Block>, memptr: int, b: Block)
    requires memptr == NodeAt(head, free, |free|) && Linked(mnext[memptr := NULL], mlength, head, free) && head < b.addr
    requires Loose(free + [b]) && head in mlength && mlength[head] == Total(free)
    ensures
      var n := mlength[b.addr := b.len];
      && head in n && Linked(mnext[memptr := b.addr][b.addr := NULL], n[head := n[head] + b.len], head, free + [b])
      && n[head] + b.len == Total(free + [b])
  {
    hide Linked, Total;
    forall k | 0 <= k < |free| ensures free[k].addr < b.addr {
      assert NotAfter((free + [b])[k], (free + [b])[|free|]);
      assert (free + [b])[k].len > 0;
    }
    LinkInsert(mnext[memptr := NULL], mlength, head, free, |free|, b);
    assert free[..|free|] + [b] + free[|free|..] == free + [b];
    assert mnext[memptr := NULL][b.addr := NULL][memptr := b.addr] == mnext[memptr := b.addr][b.addr := NULL];
    LinkCount(mnext[memptr := b.addr][b.addr := NULL], mlength[b.addr := b.len], head, free + [b],
        mlength[head] + b.len);
    TotalAppend(free, [b]);
    TotalOne(b);
  }

  /** The two coalescing steps of freemem, one after the other, are `Merge`. */
  lemma MergeSteps(free: seq<Block>, i: int, b: Block, mid: seq<Block>, last: seq<Block>)
    requires 0 <= i <= |free| && b.len > 0
    requires var p := MergeLow(free, i, b);
      mid == if p < i then free[..p] + [Block(free[p].addr, free[p].len + b.len)] + free[i..]
             else free[..i] + [b] + free[i..]
    requires var p := MergeLow(free, i, b);
      last == if p + 1 < |mid| && mid[p].addr + mid[p].len == mid[p + 1].addr
              then mid[..p] + [Block(mid[p].addr, mid[p].len + mid[p + 1].len)] + mid[p + 2..] else mid
    ensures last == Merge(free, i, b)
  {
    hide Merge;
    MergeShape(free, i, b);
    var p := MergeLow(free, i, b);
    assert p + 1 < |mid| <==> i < |free|;
    if i < |free| { assert mid[p + 1] == free[i]; }
  }

  /** A header word other than those of the list: the count of free bytes. */
  lemma LinkCount(mnext: map<int, int>, mlength: map<int, int>, memlist: int, free: seq<Block>, total: int)
    requires Linked(mnext, mlength, memlist, free)
    ensures Linked(mnext, mlength[memlist := total], memlist, free)
  {
    var m := mlength[memlist := total];
    forall i | 0 <= i < |free| ensures LengthAt(m, free, i) {
      assert LengthAt(mlength, free, i);
    }
  }

  lemma LengthElsewhere(mnext: map<int, int>, mlength: map<int, int>, memlist: int, free: seq<Block>, a: int, n: int)
    requires Linked(mnext, mlength, memlist, free) && forall i :: 0 <= i < |free| ==> free[i].addr != a
    ensures Linked(mnext, mlength[a := n], memlist, free)
  {
    var m := mlength[a := n];
    forall i | 0 <= i < |free| ensures LengthAt(m, free, i) { assert LengthAt(mlength, free, i); }
  }

  /** Less than canonical, and kept by every call whatever is released: nonempty blocks that do not overlap. */
  ghost predicate Loose(free: seq<Block>) {
    && (forall i :: 0 <= i < |free| ==> free[i].len > 0)
    && (forall i, j :: 0 <= i < j < |free| ==> NotAfter(free[i], free[j]))
  }

  lemma OrderedIsLoose(free: seq<Block>, lo: int, hi: int)
    requires Ordered(free, lo, hi)
    ensures Loose(free) && forall i :: 0 <= i < |free| ==> lo <= free[i].addr
  {
    forall i | 0 <= i < |free| ensures free[i].len > 0 && lo <= free[i].addr { assert InHeap(free[i], lo, hi); }
  }

  /** Keeping at most one piece of block `i`. */
  lemma LooseCut(free: seq<Block>, i: int, keep: seq<Block>)
    requires Loose(free) && 0 <= i < |free| && |keep| <= 1
    requires |keep| == 1 ==>
               keep[0].len > 0 && free[i].addr <= keep[0].addr
               && keep[0].addr + keep[0].len <= free[i].addr + free[i].len
    ensures Loose(free[..i] + keep + free[i + 1..])
    ensures Total(free[..i] + keep + free[i + 1..]) == Total(free) - free[i].len
              + (if keep == [] then 0 else keep[0].len)
    ensures keep == [] ==> free[..i] + keep + free[i + 1..] == free[..i] + free[i + 1..]
  {
    hide Total;
    TotalSplice(free, i, keep);
    MiddleParts(keep, 0);
    if keep == [] {
      LooseSkip(free, i, i + 1);
    } else {
      forall k | i < k < |free| ensures NotAfter(keep[0], free[k]) { assert NotAfter(free[i], free[k]); }
      forall k | 0 <= k < i ensures NotAfter(free[k], keep[0]) { assert NotAfter(free[k], free[i]); }
      LooseSplice(free, i, i + 1, keep[0]);
      assert keep == [keep[0]];
    }
  }

  /** The list without the blocks `[p, q)`. */
  lemma LooseSkip(s: seq<Block>, p: int, q: int)
    requires Loose(s) && 0 <= p <= q <= |s|
    ensures Loose(s[..p] + s[q..]) && s[..p] + [] + s[q..] == s[..p] + s[q..]
  {
    var t := s[..p] + s[q..];
    forall k | 0 <= k < |t| ensures t[k] == s[if k < p then k else k - p + q] { }
    forall k, l | 0 <= k < l < |t| ensures NotAfter(t[k], t[l]) {
      assert NotAfter(s[if k < p then k else k - p + q], s[if l < p then l else l - p + q]);
    }
  }

  /** A block in the place of the blocks `[p, q)`, apart from the others. */
  lemma LooseSplice(s: seq<Block>, p: int, q: int, x: Block)
    requires Loose(s) && 0 <= p <= q <= |s| && x.len > 0
    requires forall k :: 0 <= k < p ==> NotAfter(s[k], x)
    requires forall k :: q <= k < |s| ==> NotAfter(x, s[k])
    ensures Loose(s[..p] + [x] + s[q..])
  {
    var t := s[..p] + [x] + s[q..];
    forall k | 0 <= k < |t| ensures t[k] == if k < p then s[k] else if k == p then x else s[k - p - 1 + q] { }
    forall k, l | 0 <= k < l < |t| ensures NotAfter(t[k], t[l]) {
      if k != p && l != p {
        assert NotAfter(s[if k < p then k else k - p - 1 + q], s[if l < p then l else l - p - 1 + q]);
      }
    }
  }

  lemma SplitClear(free: seq<Block>, i: int, n: int)
    requires Loose(free) && 0 <= i < |free| && n < free[i].len
    ensures forall k :: i < k < |free| ==> free[i].addr + n < free[k].addr
  {
    forall k | i < k < |free| ensures free[i].addr + n < free[k].addr { assert NotAfter(free[i], free[k]); }
  }

  /** A block that freemem accepts is clear of the list: merging it keeps the blocks apart. */
  lemma Placed(free: seq<Block>, b: Block, i: int)
    requires Loose(free) && b.len > 0 && i == Below(free, b.addr)
    requires i > 0 ==> free[i - 1].addr + free[i - 1].len <= b.addr
    requires i < |free| ==> b.addr + b.len <= free[i].addr
    ensures Loose(Merge(free, i, b)) && Total(Merge(free, i, b)) == Total(free) + b.len
    ensures forall k :: i <= k < |free| ==> b.addr < free[k].addr
  {
    hide Merge, Total;
    var p, q, m := MergeLow(free, i, b), MergeHigh(free, i, b), Joined(free, i, b);
    MergeShape(free, i, b);
    forall k | 0 <= k < p ensures NotAfter(free[k], m) {
      if k < i - 1 { assert NotAfter(free[k], free[i - 1]); }
    }
    forall k | i <= k < |free| ensures b.addr + b.len <= free[k].addr && (q <= k ==> NotAfter(m, free[k])) {
      if i < k { assert NotAfter(free[i], free[k]); }
    }
    LooseSplice(free, p, q, m);
    JoinedTotal(free, i, b);
  }

  lemma JoinedTotal(free: seq<Block>, i: int, b: Block)
    requires 0 <= i <= |free|
    ensures Total(Merge(free, i, b)) == Total(free) + b.len
  {
    hide Total, Merge;
    var p, q, m := MergeLow(free, i, b), MergeHigh(free, i, b), Joined(free, i, b);
    MergeShape(free, i, b);
    FreeLists.ThreeParts(free[..p], [m], free[q..], 0);
    FreeLists.ThreeParts(free[..p], free[p..q], free[q..], 0);
    assert free[..p] + free[p..q] + free[q..] == free;
    MiddleParts([m], 0);
    MiddleParts(free[p..q], 0);
  }
}
