/** The heap allocator: first-fit `getmem`, last-fit `getstk` and coalescing `freemem` over one
    address-ordered free list (system/getmem.c.save, system/getstk.c, system/freemem.c.save).

    `FreeLists` says what the free list is and what each call does to it, and proves what runs of calls
    keep; class `Allocator` in module `HeapLinks` is the code itself, over linked blocks in memory. */
module FreeLists {

  const U32 := 0x1_0000_0000

  /** `roundmb`: round up to a multiple of 8, in 32-bit arithmetic. */
  function RoundMb(x: int): int {
    (x + 7) % U32 / 8 * 8
  }

  datatype Block = Block(addr: int, len: int)

  /** A call that hands out memory either fails or returns a block and the list that is left. */
  datatype Grant = Refused | Granted(block: Block, rest: seq<Block>)

  datatype Release = Rejected | Released(free: seq<Block>)

  /** Block `b` is an aligned, nonempty block inside the heap `[lo, hi)`. */
  ghost predicate InHeap(b: Block, lo: int, hi: int) {
    lo <= b.addr && b.addr + b.len <= hi && b.len > 0 && b.addr % 8 == 0 && b.len % 8 == 0
  }

  /** `b` ends strictly before `c` starts: the two are neither overlapping nor adjacent. */
  ghost predicate Apart(b: Block, c: Block) {
    b.addr + b.len < c.addr
  }

  /** The canonical form: ascending, aligned, and no two adjacent blocks. */
  ghost predicate Canonical(free: seq<Block>, lo: int, hi: int) {
    && (forall i :: 0 <= i < |free| ==> InHeap(free[i], lo, hi))
    && (forall i, j :: 0 <= i < j < |free| ==> Apart(free[i], free[j]))
  }

  ghost predicate Inside(b: Block, a: int) {
    b.addr <= a < b.addr + b.len
  }

  ghost predicate Covers(blocks: seq<Block>, a: int) {
    exists i :: 0 <= i < |blocks| && Inside(blocks[i], a)
  }

  function Total(blocks: seq<Block>): int {
    if blocks == [] then 0 else blocks[0].len + Total(blocks[1..])
  }

  lemma {:induction false} TotalAppend(a: seq<Block>, b: seq<Block>)
    ensures Total(a + b) == Total(a) + Total(b)
  {
    if a == [] {
      assert a + b == b;
    } else {
      TotalAppend(a[1..], b);
      assert (a + b)[1..] == a[1..] + b;
    }
  }

  /** Replacing the block at `i` by the blocks of `mid` changes the total by the difference. */
  lemma TotalSplice(s: seq<Block>, i: int, mid: seq<Block>)
    requires 0 <= i < |s|
    ensures Total(s[..i] + mid + s[i + 1..]) == Total(s) - s[i].len + Total(mid)
  {
    TotalAppend(s[..i] + mid, s[i + 1..]);
    TotalAppend(s[..i], mid);
    TotalAppend(s[..i] + [s[i]], s[i + 1..]);
    TotalAppend(s[..i], [s[i]]);
    assert s[..i] + [s[i]] + s[i + 1..] == s;
  }

  // ---------- What each call does to the free list ----------

  /** The first block that can hold `n` bytes, or the length of the list. */
  function FirstFit(free: seq<Block>, n: int): (i: int)
    ensures 0 <= i <= |free|
    ensures forall k :: 0 <= k < i ==> free[k].len < n
    ensures i < |free| ==> free[i].len >= n
  {
    if free == [] then 0
    else if free[0].len >= n then 0
    else
      var i := FirstFit(free[1..], n);
      assert forall k :: 1 <= k < i + 1 ==> free[k] == free[1..][k - 1];
      i + 1
  }

  /** The last block that can hold `n` bytes, or -1. */
  function LastFit(free: seq<Block>, n: int): (i: int)
    ensures -1 <= i < |free|
    ensures forall k :: i < k < |free| ==> free[k].len < n
    ensures i >= 0 ==> free[i].len >= n
  {
    if free == [] then -1
    else if free[|free| - 1].len >= n then |free| - 1
    else LastFit(free[..|free| - 1], n)
  }

  /** getmem: the low end of the first block that fits. */
  function GetMem(free: seq<Block>, nbytes: int): Grant {
    var n := RoundMb(nbytes);
    var i := FirstFit(free, n);
    if nbytes == 0 || i == |free| then Refused
    else
      Granted(Block(free[i].addr, n),
              if free[i].len == n then free[..i] + free[i + 1..]
              else free[..i] + [Block(free[i].addr + n, free[i].len - n)] + free[i + 1..])
  }

  /** getstk: the high end of the last block that fits.  The code returns the address of the highest word
      of the block, see `StackTop`. */
  function GetStk(free: seq<Block>, nbytes: int): Grant {
    var n := RoundMb(nbytes);
    var i := LastFit(free, n);
    if nbytes == 0 || i < 0 then Refused
    else
      Granted(Block(free[i].addr + free[i].len - n, n),
              if free[i].len == n then free[..i] + free[i + 1..]
              else free[..i] + [Block(free[i].addr, free[i].len - n)] + free[i + 1..])
  }

  /** What `getstk` returns for a block: the address of its highest word. */
  function StackTop(b: Block): int {
    b.addr + b.len - 4
  }

  /** The number of blocks the walk of `freemem` passes. */
  function Below(free: seq<Block>, addr: int): (i: int)
    ensures 0 <= i <= |free|
    ensures forall k :: 0 <= k < i ==> free[k].addr < addr
    ensures i < |free| ==> free[i].addr >= addr
  {
    if free == [] || free[0].addr >= addr then 0
    else
      var i := Below(free[1..], addr);
      assert forall k :: 1 <= k < i + 1 ==> free[k] == free[1..][k - 1];
      i + 1
  }

  /** Put block `b` at position `i` and merge it with its neighbours if adjacent. */
  function Merge(free: seq<Block>, i: int, b: Block): seq<Block>
    requires 0 <= i <= |free|
  {
    var joinPrev := i > 0 && free[i - 1].addr + free[i - 1].len == b.addr;
    var m := if joinPrev then Block(free[i - 1].addr, free[i - 1].len + b.len) else b;
    var left := if joinPrev then free[..i - 1] else free[..i];
    if i < |free| && m.addr + m.len == free[i].addr
    then left + [Block(m.addr, m.len + free[i].len)] + free[i + 1..]
    else left + [m] + free[i..]
  }

  /** freemem, for a heap `[lo, hi)`. */
  function FreeMem(free: seq<Block>, addr: int, nbytes: int, lo: int, hi: int): Release {
    var n := RoundMb(nbytes);
    var i := Below(free, addr);
    if nbytes == 0 || addr < lo || addr > hi then Rejected
    else if i > 0 && addr < free[i - 1].addr + free[i - 1].len then Rejected
    else if i < |free| && addr + n > free[i].addr then Rejected
    else Released(Merge(free, i, Block(addr, n)))
  }

  /** The macro `freestk`, for the pointer `getstk` returned. */
  function FreeStk(free: seq<Block>, top: int, nbytes: int, lo: int, hi: int): Release {
    FreeMem(free, top - RoundMb(nbytes) + 4, RoundMb(nbytes), lo, hi)
  }

  // ---------- The free list is a canonical form of the set of free addresses ----------

  lemma TailCovers(s: seq<Block>, lo: int, hi: int, a: int)
    requires Canonical(s, lo, hi) && s != []
    ensures Covers(s[1..], a) <==> Covers(s, a) && a >= s[0].addr + s[0].len
  {
    if Covers(s, a) && a >= s[0].addr + s[0].len {
      var i :| 0 <= i < |s| && Inside(s[i], a);
      assert s[1..][i - 1] == s[i];
    }
    if Covers(s[1..], a) {
      var i :| 0 <= i < |s[1..]| && Inside(s[1..][i], a);
      assert s[i + 1] == s[1..][i];
      assert Apart(s[0], s[i + 1]);
    }
  }

  lemma FirstCovered(s: seq<Block>, lo: int, hi: int)
    requires Canonical(s, lo, hi) && s != []
    ensures s[0].len > 0 && Covers(s, s[0].addr)
    ensures forall a :: s[0].addr <= a < s[0].addr + s[0].len ==> Covers(s, a)
    ensures forall a :: a < s[0].addr ==> !Covers(s, a)
    ensures !Covers(s, s[0].addr + s[0].len)
  {
    assert InHeap(s[0], lo, hi);
    forall a | s[0].addr <= a < s[0].addr + s[0].len ensures Covers(s, a) {
      assert Inside(s[0], a);
    }
    forall a, i | (a < s[0].addr || a == s[0].addr + s[0].len) && 0 <= i < |s| ensures !Inside(s[i], a) {
      if i > 0 { assert Apart(s[0], s[i]); }
      assert InHeap(s[0], lo, hi);
    }
  }

  /** Two canonical lists of the same addresses are the same list. */
  lemma {:induction false} CanonicalUnique(s: seq<Block>, t: seq<Block>, lo: int, hi: int)
    requires Canonical(s, lo, hi) && Canonical(t, lo, hi)
    requires forall a :: Covers(s, a) <==> Covers(t, a)
    ensures s == t
  {
    if s == [] || t == [] {
      if s != [] { FirstCovered(s, lo, hi); }
      if t != [] { FirstCovered(t, lo, hi); }
    } else {
      FirstCovered(s, lo, hi);
      FirstCovered(t, lo, hi);
      assert s[0].addr == t[0].addr;
      var e := s[0].addr + s[0].len;
      var f := t[0].addr + t[0].len;
      assert !Covers(s, e) && !Covers(t, f);
      assert e == f;
      forall a ensures Covers(s[1..], a) <==> Covers(t[1..], a) {
        TailCovers(s, lo, hi, a);
        TailCovers(t, lo, hi, a);
      }
      CanonicalUnique(s[1..], t[1..], lo, hi);
      assert s == [s[0]] + s[1..] && t == [t[0]] + t[1..];
    }
  }

  // ---------- Each call keeps the canonical form and changes exactly the addresses it should ----------

  lemma CoversAppend(x: seq<Block>, y: seq<Block>, a: int)
    ensures Covers(x + y, a) <==> Covers(x, a) || Covers(y, a)
  {
    if Covers(x, a) {
      var i :| 0 <= i < |x| && Inside(x[i], a);
      assert (x + y)[i] == x[i];
    }
    if Covers(y, a) {
      var i :| 0 <= i < |y| && Inside(y[i], a);
      assert (x + y)[|x| + i] == y[i];
    }
  }

  lemma CoversOne(b: Block, a: int)
    ensures Covers([b], a) <==> Inside(b, a)
  {
    if Inside(b, a) { assert Inside([b][0], a); }
  }

  /** What is covered by the blocks before position `i`, at it, and after it. */
  lemma CoversParts(s: seq<Block>, i: int, mid: seq<Block>, a: int)
    requires 0 <= i < |s|
    ensures Covers(s[..i] + mid + s[i + 1..], a) <==> Covers(s[..i], a) || Covers(mid, a) || Covers(s[i + 1..], a)
    ensures Covers(s, a) <==> Covers(s[..i], a) || Inside(s[i], a) || Covers(s[i + 1..], a)
  {
    CoversAppend(s[..i] + mid, s[i + 1..], a);
    CoversAppend(s[..i], mid, a);
    CoversAppend(s[..i] + [s[i]], s[i + 1..], a);
    CoversAppend(s[..i], [s[i]], a);
    CoversOne(s[i], a);
    assert s[..i] + [s[i]] + s[i + 1..] == s;
  }

  /** In a canonical list the other blocks do not cover what block `i` covers. */
  lemma CoveredOnce(s: seq<Block>, lo: int, hi: int, i: int, a: int)
    requires Canonical(s, lo, hi) && 0 <= i < |s| && Inside(s[i], a)
    ensures !Covers(s[..i], a) && !Covers(s[i + 1..], a)
  {
    forall k | 0 <= k < i ensures !Inside(s[..i][k], a) {
      assert Apart(s[k], s[i]);
    }
    var above := s[i + 1..];
    forall k | 0 <= k < |above| ensures !Inside(above[k], a) {
      assert above[k] == s[i + 1 + k] && Apart(s[i], s[i + 1 + k]);
    }
  }

  /** Replacing block `i` by at most one piece of it keeps the canonical form. */
  lemma CutCanonical(s: seq<Block>, lo: int, hi: int, i: int, keep: seq<Block>)
    requires Canonical(s, lo, hi) && 0 <= i < |s| && |keep| <= 1
    requires |keep| == 1 ==> InHeap(keep[0], s[i].addr, s[i].addr + s[i].len)
    ensures Canonical(s[..i] + keep + s[i + 1..], lo, hi)
  {
    var t := s[..i] + keep + s[i + 1..];
    var gap := 1 - |keep|;
    forall k | 0 <= k < |t| ensures InHeap(t[k], lo, hi) {
      assert t[k] == if k < i then s[k] else if k < i + |keep| then keep[0] else s[k + gap];
      assert InHeap(s[i], lo, hi);
    }
    forall k, m | 0 <= k < m < |t| ensures Apart(t[k], t[m]) {
      assert t[k] == if k < i then s[k] else if k < i + |keep| then keep[0] else s[k + gap];
      assert t[m] == if m < i then s[m] else if m < i + |keep| then keep[0] else s[m + gap];
      assert k < i ==> Apart(s[k], s[i]);
      assert m + gap > i ==> Apart(s[i], s[m + gap]);
      assert k < i && m + gap < |s| ==> Apart(s[k], s[m + gap]);
    }
  }

  /** What a granted request promises: an aligned block of the rounded size, taken from the free addresses
      and from nothing else, and a list in canonical form. */
  ghost predicate GoodGrant(free: seq<Block>, n: int, g: Grant, lo: int, hi: int)
    requires g.Granted?
  {
    && g.block.len == n && InHeap(g.block, lo, hi)
    && Canonical(g.rest, lo, hi)
    && (forall a :: Covers(g.rest, a) <==> Covers(free, a) && !Inside(g.block, a))
    && (forall a :: Inside(g.block, a) ==> Covers(free, a))
    && Total(g.rest) == Total(free) - n
  }

  lemma CutGrant(s: seq<Block>, lo: int, hi: int, i: int, n: int, high: bool)
    requires Canonical(s, lo, hi) && 0 <= i < |s| && 0 < n <= s[i].len && n % 8 == 0
    ensures
      var b := Block(if high then s[i].addr + s[i].len - n else s[i].addr, n);
      var left := Block(if high then s[i].addr else s[i].addr + n, s[i].len - n);
      var rest := if s[i].len == n then s[..i] + s[i + 1..] else s[..i] + [left] + s[i + 1..];
      GoodGrant(s, n, Granted(b, rest), lo, hi)
  {
    hide Canonical, Covers, Total;
    var b := Block(if high then s[i].addr + s[i].len - n else s[i].addr, n);
    var left := Block(if high then s[i].addr else s[i].addr + n, s[i].len - n);
    var keep := if s[i].len == n then [] else [left];
    var rest := s[..i] + keep + s[i + 1..];
    BlockInHeap(s, lo, hi, i);
    CutCanonical(s, lo, hi, i, keep);
    TotalSplice(s, i, keep);
    MiddleParts(keep, 0);
    forall a ensures Covers(rest, a) <==> Covers(s, a) && !Inside(b, a) { CutCovers(s, lo, hi, i, keep, b, a); }
    forall a | Inside(b, a) ensures Covers(s, a) { InsideCovers(s, i, a); }
    assert s[..i] + [] + s[i + 1..] == s[..i] + s[i + 1..];
  }

  lemma BlockInHeap(s: seq<Block>, lo: int, hi: int, i: int)
    requires Canonical(s, lo, hi) && 0 <= i < |s|
    ensures InHeap(s[i], lo, hi)
  {
  }

  lemma InsideCovers(s: seq<Block>, i: int, a: int)
    requires 0 <= i < |s| && Inside(s[i], a)
    ensures Covers(s, a)
  {
  }

  /** Cutting block `b` off block `i` takes exactly its addresses away, if `keep` is the rest of block `i`. */
  lemma CutCovers(s: seq<Block>, lo: int, hi: int, i: int, keep: seq<Block>, b: Block, a: int)
    requires Canonical(s, lo, hi) && 0 <= i < |s| && |keep| <= 1
    requires (Inside(b, a) || (keep != [] && Inside(keep[0], a)) <==> Inside(s[i], a))
              && !(Inside(b, a) && keep != [] && Inside(keep[0], a))
    ensures Covers(s[..i] + keep + s[i + 1..], a) <==> Covers(s, a) && !Inside(b, a)
  {
    hide Canonical, Covers;
    CoversParts(s, i, keep, a);
    MiddleParts(keep, a);
    if Inside(s[i], a) { CoveredOnce(s, lo, hi, i, a); }
  }

  /** The requests whose size survives `roundmb`: not zero, and not so large that rounding wraps to zero. */
  predicate Sane(nbytes: int) {
    1 <= nbytes <= U32 - 8
  }

  lemma SaneRounds(nbytes: int)
    requires 0 <= nbytes < U32
    ensures RoundMb(nbytes) >= 0 && RoundMb(nbytes) % 8 == 0
    ensures Sane(nbytes) ==> nbytes <= RoundMb(nbytes) < nbytes + 8 && RoundMb(nbytes) < U32
    ensures nbytes > U32 - 8 ==> RoundMb(nbytes) == 0
    ensures nbytes % 8 == 0 && Sane(nbytes) ==> RoundMb(nbytes) == nbytes
  {
  }

  /** A block length is a multiple of 8, so it holds the request iff it holds the rounded request. */
  lemma FitsRounded(free: seq<Block>, nbytes: int, lo: int, hi: int)
    requires Canonical(free, lo, hi) && Sane(nbytes)
    ensures forall k :: 0 <= k < |free| ==> (free[k].len >= nbytes <==> free[k].len >= RoundMb(nbytes))
  {
    forall k | 0 <= k < |free| ensures free[k].len >= nbytes <==> free[k].len >= RoundMb(nbytes) {
      assert InHeap(free[k], lo, hi);
    }
  }

  /** getmem succeeds exactly when some free block is large enough; it grants from the lowest such block,
      properly. */
  lemma GetMemGood(free: seq<Block>, nbytes: int, lo: int, hi: int)
    requires Canonical(free, lo, hi) && Sane(nbytes)
    ensures GetMem(free, nbytes).Granted? <==> exists i :: 0 <= i < |free| && free[i].len >= nbytes
    ensures GetMem(free, nbytes).Granted? ==>
              && GoodGrant(free, RoundMb(nbytes), GetMem(free, nbytes), lo, hi)
              && forall i :: 0 <= i < |free| && free[i].len >= nbytes ==>
                 GetMem(free, nbytes).block.addr <= free[i].addr
  {
    hide Canonical, GoodGrant, RoundMb, FirstFit;
    SaneRounds(nbytes);
    var n := RoundMb(nbytes);
    var i := FirstFit(free, n);
    FitsRounded(free, nbytes, lo, hi);
    if i < |free| {
      CutGrant(free, lo, hi, i, n, false);
      forall k | 0 <= k < |free| && free[k].len >= nbytes ensures free[i].addr <= free[k].addr {
        if i < k { Ascending(free, lo, hi, i, k); }
      }
    }
  }

  lemma Ascending(free: seq<Block>, lo: int, hi: int, i: int, k: int)
    requires Canonical(free, lo, hi) && 0 <= i < k < |free|
    ensures free[i].addr < free[i].addr + free[i].len < free[k].addr < free[k].addr + free[k].len
  {
    assert Apart(free[i], free[k]) && InHeap(free[i], lo, hi) && InHeap(free[k], lo, hi);
  }

  /** getstk succeeds exactly when some free block is large enough; it grants the top of the highest such
      block, properly. */
  lemma GetStkGood(free: seq<Block>, nbytes: int, lo: int, hi: int)
    requires Canonical(free, lo, hi) && Sane(nbytes)
    ensures GetStk(free, nbytes).Granted? <==> exists i :: 0 <= i < |free| && free[i].len >= nbytes
    ensures GetStk(free, nbytes).Granted? ==>
              && GoodGrant(free, RoundMb(nbytes), GetStk(free, nbytes), lo, hi)
              && forall i :: 0 <= i < |free| && free[i].len >= nbytes ==>
                               free[i].addr + free[i].len <= GetStk(free, nbytes).block.addr + RoundMb(nbytes)
  {
    hide Canonical, GoodGrant, RoundMb, LastFit;
    SaneRounds(nbytes);
    var n := RoundMb(nbytes);
    var i := LastFit(free, n);
    FitsRounded(free, nbytes, lo, hi);
    if i >= 0 {
      CutGrant(free, lo, hi, i, n, true);
      forall k | 0 <= k < |free| && free[k].len >= nbytes
        ensures free[k].addr + free[k].len <= free[i].addr + free[i].len
      {
        if k < i { Ascending(free, lo, hi, k, i); }
      }
    }
  }

  /** A request of more than 2^32 - 8 bytes rounds to zero: the code then "allocates" the first free block
      without taking anything off the list.  So what is handed out has room for the request, and has left the
      free list, exactly for the other requests. */
  lemma GetMemTakesIffSane(free: seq<Block>, nbytes: int, lo: int, hi: int)
    requires Canonical(free, lo, hi) && 1 <= nbytes < U32 && GetMem(free, nbytes).Granted?
    ensures GetMem(free, nbytes).block.len >= nbytes <==> Sane(nbytes)
    ensures !Covers(GetMem(free, nbytes).rest, GetMem(free, nbytes).block.addr) <==> Sane(nbytes)
  {
    SaneRounds(nbytes);
    if Sane(nbytes) {
      GetMemGood(free, nbytes, lo, hi);
      assert Inside(GetMem(free, nbytes).block, GetMem(free, nbytes).block.addr);
    } else {
      var i := FirstFit(free, 0);
      assert InHeap(free[i], lo, hi);
      assert free[..i] + [Block(free[i].addr + 0, free[i].len - 0)] + free[i + 1..] == free;
      assert Inside(free[i], free[i].addr);
    }
  }

  /** The position freemem finds for a block that overlaps no free block: the neighbours are clear of it. */
  lemma BelowClear(free: seq<Block>, lo: int, hi: int, b: Block)
    requires Canonical(free, lo, hi) && b.len > 0
    requires forall a :: Inside(b, a) ==> !Covers(free, a)
    ensures
      var i := Below(free, b.addr);
      && (forall k :: 0 <= k < i ==> free[k].addr + free[k].len <= b.addr)
      && (forall k :: i <= k < |free| ==> b.addr + b.len <= free[k].addr)
  {
    var i := Below(free, b.addr);
    assert Inside(b, b.addr);
    forall k | 0 <= k < i ensures free[k].addr + free[k].len <= b.addr {
      assert !Inside(free[k], b.addr);
    }
    forall k | i <= k < |free| ensures b.addr + b.len <= free[k].addr {
      if i < k { Ascending(free, lo, hi, i, k); }
      assert InHeap(free[k], lo, hi);
      assert Inside(free[k], free[k].addr);
      assert Covers(free, free[k].addr);
    }
  }

  /** The blocks that `Merge` joins are those in `[MergeLow, MergeHigh)`: at most one on each side. */
  function MergeLow(free: seq<Block>, i: int, b: Block): int
    requires 0 <= i <= |free|
  {
    if i > 0 && free[i - 1].addr + free[i - 1].len == b.addr then i - 1 else i
  }

  function MergeHigh(free: seq<Block>, i: int, b: Block): int
    requires 0 <= i <= |free|
  {
    if i < |free| && b.addr + b.len == free[i].addr then i + 1 else i
  }

  function Joined(free: seq<Block>, i: int, b: Block): Block
    requires 0 <= i <= |free|
  {
    var p, q := MergeLow(free, i, b), MergeHigh(free, i, b);
    Block(if p < i then free[p].addr else b.addr,
          (if p < i then free[p].len else 0) + b.len + (if i < q then free[i].len else 0))
  }

  lemma MergeShape(free: seq<Block>, i: int, b: Block)
    requires 0 <= i <= |free|
    ensures Merge(free, i, b) == free[..MergeLow(free, i, b)] + [Joined(free, i, b)] + free[MergeHigh(free, i, b)..]
  {
    var p, q, m := MergeLow(free, i, b), MergeHigh(free, i, b), Joined(free, i, b);
    var left, right := free[..p], free[q..];
    if i < q {
      assert right == free[i + 1..];
      assert Merge(free, i, b) == left + [m] + right;
    } else {
      assert right == free[i..];
      assert Merge(free, i, b) == left + [m] + right;
    }
  }

  /** A block in the place of the blocks `[p, q)` keeps the canonical form if it is apart from the others. */
  lemma SpliceCanonical(s: seq<Block>, lo: int, hi: int, p: int, q: int, m: Block)
    requires Canonical(s, lo, hi) && 0 <= p <= q <= |s| && InHeap(m, lo, hi)
    requires forall k :: 0 <= k < p ==> Apart(s[k], m)
    requires forall k :: q <= k < |s| ==> Apart(m, s[k])
    ensures Canonical(s[..p] + [m] + s[q..], lo, hi)
  {
    var t := s[..p] + [m] + s[q..];
    forall k | 0 <= k < |t| ensures t[k] == if k < p then s[k] else if k == p then m else s[k - p - 1 + q] {
    }
    forall k, l | 0 <= k < l < |t| ensures Apart(t[k], t[l]) {
      assert k < p < l ==> Apart(s[k], s[l - p - 1 + q]);
    }
  }

  /** Merging a clear block at its place keeps the canonical form. */
  lemma MergeCanonical(free: seq<Block>, lo: int, hi: int, i: int, b: Block)
    requires Canonical(free, lo, hi) && 0 <= i <= |free| && InHeap(b, lo, hi)
    requires forall k :: 0 <= k < i ==> free[k].addr + free[k].len <= b.addr
    requires forall k :: i <= k < |free| ==> b.addr + b.len <= free[k].addr
    ensures Canonical(Merge(free, i, b), lo, hi)
  {
    var p, q, m := MergeLow(free, i, b), MergeHigh(free, i, b), Joined(free, i, b);
    MergeShape(free, i, b);
    assert p < i ==> InHeap(free[p], lo, hi);
    assert i < q ==> InHeap(free[i], lo, hi);
    forall k | 0 <= k < p ensures Apart(free[k], m) {
      if k < i - 1 { Ascending(free, lo, hi, k, i - 1); }
    }
    forall k | q <= k < |free| ensures Apart(m, free[k]) {
      if i < k { Ascending(free, lo, hi, i, k); }
    }
    SpliceCanonical(free, lo, hi, p, q, m);
  }

  lemma JoinedCovers(free: seq<Block>, lo: int, hi: int, i: int, b: Block, a: int)
    requires Canonical(free, lo, hi) && 0 <= i <= |free| && b.len > 0
    ensures
      var p, q, m := MergeLow(free, i, b), MergeHigh(free, i, b), Joined(free, i, b);
      && (Covers([m], a) <==> Covers(free[p..q], a) || Inside(b, a))
      && Total([m]) == Total(free[p..q]) + b.len
  {
    hide Canonical, Covers, Total;
    var p, q, m := MergeLow(free, i, b), MergeHigh(free, i, b), Joined(free, i, b);
    if p < i { Positive(free, lo, hi, p); }
    if i < q { Positive(free, lo, hi, i); }
    MiddleParts([m], a);
    MiddleParts(free[p..q], a);
  }

  lemma Positive(free: seq<Block>, lo: int, hi: int, i: int)
    requires Canonical(free, lo, hi) && 0 <= i < |free|
    ensures free[i].len > 0 && lo <= free[i].addr && free[i].addr + free[i].len <= hi
  {
    assert InHeap(free[i], lo, hi);
  }

  /** ... and adds exactly its addresses. */
  lemma MergeCovers(free: seq<Block>, lo: int, hi: int, i: int, b: Block, a: int)
    requires Canonical(free, lo, hi) && 0 <= i <= |free| && b.len > 0
    ensures Covers(Merge(free, i, b), a) <==> Covers(free, a) || Inside(b, a)
    ensures Total(Merge(free, i, b)) == Total(free) + b.len
  {
    hide Canonical, Covers, Total, Merge, Joined;
    var p, q, m := MergeLow(free, i, b), MergeHigh(free, i, b), Joined(free, i, b);
    MergeShape(free, i, b);
    ThreeParts(free[..p], [m], free[q..], a);
    ThreeParts(free[..p], free[p..q], free[q..], a);
    assert free[..p] + free[p..q] + free[q..] == free;
    JoinedCovers(free, lo, hi, i, b, a);
  }

  lemma ThreeParts(x: seq<Block>, y: seq<Block>, z: seq<Block>, a: int)
    ensures Covers(x + y + z, a) <==> Covers(x, a) || Covers(y, a) || Covers(z, a)
    ensures Total(x + y + z) == Total(x) + Total(y) + Total(z)
  {
    CoversAppend(x + y, z, a);
    CoversAppend(x, y, a);
    TotalAppend(x + y, z);
    TotalAppend(x, y);
  }

  lemma MiddleParts(y: seq<Block>, a: int)
    requires |y| <= 2
    ensures Covers(y, a) <==> (|y| > 0 && Inside(y[0], a)) || (|y| > 1 && Inside(y[1], a))
    ensures Total(y) == (if |y| > 0 then y[0].len else 0) + (if |y| > 1 then y[1].len else 0)
  {
    if |y| == 2 { assert y[1..][1..] == []; }
  }

  // ---------- Releasing what was granted ----------

  /** Giving back a block none of whose addresses is free always succeeds, keeps the canonical form and adds
      exactly the addresses of the block. */
  lemma FreeMemGood(free: seq<Block>, b: Block, lo: int, hi: int)
    requires Canonical(free, lo, hi) && InHeap(b, lo, hi) && Sane(b.len)
    requires forall a :: Inside(b, a) ==> !Covers(free, a)
    ensures FreeMem(free, b.addr, b.len, lo, hi).Released?
    ensures
      var free' := FreeMem(free, b.addr, b.len, lo, hi).free;
      && Canonical(free', lo, hi)
      && (forall a :: Covers(free', a) <==> Covers(free, a) || Inside(b, a))
      && Total(free') == Total(free) + b.len
  {
    hide Canonical, Covers, Merge;
    SaneRounds(b.len);
    BelowClear(free, lo, hi, b);
    var i := Below(free, b.addr);
    MergeCanonical(free, lo, hi, i, b);
    forall a ensures Covers(Merge(free, i, b), a) <==> Covers(free, a) || Inside(b, a) {
      MergeCovers(free, lo, hi, i, b, a);
    }
    MergeCovers(free, lo, hi, i, b, 0);
  }

  /** freemem rejects exactly the releases that overlap free memory, and so every second release of a block. */
  lemma FreeMemAcceptsIff(free: seq<Block>, b: Block, lo: int, hi: int)
    requires Canonical(free, lo, hi) && InHeap(b, lo, hi) && Sane(b.len)
    ensures FreeMem(free, b.addr, b.len, lo, hi).Released? <==> forall a :: Inside(b, a) ==> !Covers(free, a)
  {
    hide Merge;
    SaneRounds(b.len);
    if forall a :: Inside(b, a) ==> !Covers(free, a) {
      FreeMemGood(free, b, lo, hi);
    } else {
      var a :| Inside(b, a) && Covers(free, a);
      var j :| 0 <= j < |free| && Inside(free[j], a);
      var i := Below(free, b.addr);
      if j < i - 1 { Ascending(free, lo, hi, j, i - 1); }
      if i < j { Ascending(free, lo, hi, i, j); }
    }
  }

  /** Releasing a granted block gives back the very same free list. */
  lemma ReleaseUndoesGrant(free: seq<Block>, n: int, g: Grant, lo: int, hi: int)
    requires Canonical(free, lo, hi) && g.Granted? && GoodGrant(free, n, g, lo, hi) && Sane(n)
    ensures FreeMem(g.rest, g.block.addr, n, lo, hi) == Released(free)
  {
    hide Canonical, Covers, FreeMem, Inside;
    FreeMemGood(g.rest, g.block, lo, hi);
    CanonicalUnique(FreeMem(g.rest, g.block.addr, n, lo, hi).free, free, lo, hi);
  }

  /** freemem exactly undoes getmem. */
  lemma FreeMemUndoesGetMem(free: seq<Block>, nbytes: int, lo: int, hi: int)
    requires Canonical(free, lo, hi) && Sane(nbytes) && GetMem(free, nbytes).Granted?
    ensures FreeMem(GetMem(free, nbytes).rest, GetMem(free, nbytes).block.addr, nbytes, lo, hi) == Released(free)
  {
    hide Canonical, GetMem, GoodGrant;
    GetMemGood(free, nbytes, lo, hi);
    SaneRounds(nbytes);
    SaneRounds(RoundMb(nbytes));
    ReleaseUndoesGrant(free, RoundMb(nbytes), GetMem(free, nbytes), lo, hi);
  }

  /** freestk, given the pointer getstk returned, exactly undoes getstk. */
  lemma FreeStkUndoesGetStk(free: seq<Block>, nbytes: int, lo: int, hi: int)
    requires Canonical(free, lo, hi) && Sane(nbytes) && GetStk(free, nbytes).Granted?
    ensures FreeStk(GetStk(free, nbytes).rest, StackTop(GetStk(free, nbytes).block), nbytes, lo, hi) == Released(free)
  {
    hide Canonical, GetStk, FreeMem, Covers;
    GetStkGood(free, nbytes, lo, hi);
    SaneRounds(nbytes);
    ReleaseUndoesGrant(free, RoundMb(nbytes), GetStk(free, nbytes), lo, hi);
  }

  // ---------- Runs ----------

  /** A heap in use: the free list and the blocks handed out. */
  datatype State = State(free: seq<Block>, out: seq<Block>)

  /** Requests, and the release of the `k`-th outstanding block. */
  datatype Call = CallGetMem(nbytes: int) | CallGetStk(nbytes: int) | CallFree(k: int)

  predicate Permitted(s: State, c: Call) {
    match c
    case CallGetMem(n) => Sane(n)
    case CallGetStk(n) => Sane(n)
    case CallFree(k) => 0 <= k < |s.out|
  }

  function Grab(s: State, g: Grant): State {
    if g.Granted? then State(g.rest, s.out + [g.block]) else s
  }

  function Step(s: State, c: Call, lo: int, hi: int): State
    requires Permitted(s, c)
  {
    match c
    case CallGetMem(n) => Grab(s, GetMem(s.free, n))
    case CallGetStk(n) => Grab(s, GetStk(s.free, n))
    case CallFree(k) =>
      match FreeMem(s.free, s.out[k].addr, s.out[k].len, lo, hi)
      case Rejected => s
      case Released(f) => State(f, s.out[..k] + s.out[k + 1..])
  }

  predicate PermittedRun(s: State, calls: seq<Call>, lo: int, hi: int)
    decreases |calls|
  {
    calls == [] || (Permitted(s, calls[0]) && PermittedRun(Step(s, calls[0], lo, hi), calls[1..], lo, hi))
  }

  function Run(s: State, calls: seq<Call>, lo: int, hi: int): State
    requires PermittedRun(s, calls, lo, hi)
    decreases |calls|
  {
    if calls == [] then s else Run(Step(s, calls[0], lo, hi), calls[1..], lo, hi)
  }

  ghost predicate Separate(b: Block, c: Block) {
    b.addr + b.len <= c.addr || c.addr + c.len <= b.addr
  }

  /** What every reachable state satisfies, for a heap that started with the free list `init`: the
      outstanding blocks are pairwise disjoint and disjoint from the free list, and free and outstanding
      addresses together are the addresses that were free at the start. */
  ghost predicate Sound(s: State, init: seq<Block>, lo: int, hi: int) {
    && Canonical(s.free, lo, hi)
    && (forall k :: 0 <= k < |s.out| ==> InHeap(s.out[k], lo, hi))
    && (forall k, m :: 0 <= k < m < |s.out| ==> Separate(s.out[k], s.out[m]))
    && (forall a :: !(Covers(s.free, a) && Covers(s.out, a)))
    && (forall a :: Covers(init, a) <==> Covers(s.free, a) || Covers(s.out, a))
    && Total(s.free) + Total(s.out) == Total(init)
  }

  lemma SoundGrab(s: State, init: seq<Block>, lo: int, hi: int, n: int, g: Grant)
    requires Sound(s, init, lo, hi) && g.Granted? && GoodGrant(s.free, n, g, lo, hi)
    ensures Sound(Grab(s, g), init, lo, hi)
  {
    hide Canonical, Covers, Total;
    var t := Grab(s, g);
    assert InHeap(g.block, lo, hi);
    forall a ensures Covers(t.out, a) <==> Covers(s.out, a) || Inside(g.block, a) {
      CoversAppend(s.out, [g.block], a);
      CoversOne(g.block, a);
    }
    forall k, m | 0 <= k < m < |t.out| ensures Separate(t.out[k], t.out[m]) {
      if m == |s.out| { OutClear(s, init, lo, hi, k, g.block); }
    }
    TotalAppend(s.out, [g.block]);
    TotalOne(g.block);
  }

  lemma TotalOne(b: Block)
    ensures Total([b]) == b.len
  {
  }

  /** An outstanding block does not meet a block of free addresses. */
  lemma OutClear(s: State, init: seq<Block>, lo: int, hi: int, k: int, b: Block)
    requires Sound(s, init, lo, hi) && 0 <= k < |s.out| && b.len > 0
    requires forall a :: Inside(b, a) ==> Covers(s.free, a)
    ensures Separate(s.out[k], b)
  {
    var c := s.out[k];
    assert InHeap(c, lo, hi);
    if !Separate(c, b) {
      var a := if b.addr <= c.addr then c.addr else b.addr;
      assert Inside(b, a) && Inside(c, a);
      assert Covers(s.out, a);
    }
  }

  /** An outstanding block that is not free can be released. */
  lemma OutNotFree(s: State, init: seq<Block>, lo: int, hi: int, k: int, a: int)
    requires Sound(s, init, lo, hi) && 0 <= k < |s.out| && Inside(s.out[k], a)
    ensures Covers(s.out, a) && !Covers(s.free, a)
  {
  }

  /** Removing one outstanding block removes exactly its addresses. */
  lemma OutWithout(s: State, init: seq<Block>, lo: int, hi: int, k: int, a: int)
    requires Sound(s, init, lo, hi) && 0 <= k < |s.out|
    ensures Covers(s.out[..k] + s.out[k + 1..], a) <==> Covers(s.out, a) && !Inside(s.out[k], a)
  {
    CoversParts(s.out, k, [], a);
    assert s.out[..k] + [] + s.out[k + 1..] == s.out[..k] + s.out[k + 1..];
    if Inside(s.out[k], a) {
      var above := s.out[k + 1..];
      forall m | 0 <= m < k ensures !Inside(s.out[..k][m], a) {
        assert Separate(s.out[m], s.out[k]);
      }
      forall m | 0 <= m < |above| ensures !Inside(above[m], a) {
        assert above[m] == s.out[k + 1 + m] && Separate(s.out[k], s.out[k + 1 + m]);
      }
    }
  }

  /** Releasing an outstanding block never fails. */
  lemma ReleaseSucceeds(s: State, init: seq<Block>, lo: int, hi: int, k: int)
    requires Sound(s, init, lo, hi) && 0 <= k < |s.out| && 0 <= lo && hi <= U32 - 8
    ensures FreeMem(s.free, s.out[k].addr, s.out[k].len, lo, hi).Released?
    ensures Sound(Step(s, CallFree(k), lo, hi), init, lo, hi)
  {
    hide Canonical, Covers, Total, FreeMem;
    var b := s.out[k];
    var t := Step(s, CallFree(k), lo, hi);
    assert InHeap(b, lo, hi);
    forall a | Inside(b, a) ensures !Covers(s.free, a) { OutNotFree(s, init, lo, hi, k, a); }
    FreeMemGood(s.free, b, lo, hi);
    forall a ensures Covers(t.out, a) <==> Covers(s.out, a) && !Inside(b, a) { OutWithout(s, init, lo, hi, k, a); }
    forall a | Inside(b, a) ensures Covers(s.out, a) { OutNotFree(s, init, lo, hi, k, a); }
    TotalSplice(s.out, k, []);
    TotalNone();
    assert s.out[..k] + [] + s.out[k + 1..] == t.out;
  }

  lemma TotalNone()
    ensures Total([]) == 0
  {
  }

  lemma StepSound(s: State, init: seq<Block>, c: Call, lo: int, hi: int)
    requires Sound(s, init, lo, hi) && Permitted(s, c) && 0 <= lo && hi <= U32 - 8
    ensures Sound(Step(s, c, lo, hi), init, lo, hi)
  {
    hide Sound, GetMem, GetStk, FreeMem, GoodGrant;
    assert Canonical(s.free, lo, hi) by { SoundCanonical(s, init, lo, hi); }
    match c
    case CallGetMem(n) =>
      GetMemGood(s.free, n, lo, hi);
      if GetMem(s.free, n).Granted? { SoundGrab(s, init, lo, hi, RoundMb(n), GetMem(s.free, n)); }
    case CallGetStk(n) =>
      GetStkGood(s.free, n, lo, hi);
      if GetStk(s.free, n).Granted? { SoundGrab(s, init, lo, hi, RoundMb(n), GetStk(s.free, n)); }
    case CallFree(k) =>
      ReleaseSucceeds(s, init, lo, hi, k);
  }

  lemma SoundCanonical(s: State, init: seq<Block>, lo: int, hi: int)
    requires Sound(s, init, lo, hi)
    ensures Canonical(s.free, lo, hi)
  {
  }

  /** Every reachable state is sound. */
  lemma {:induction false} RunSound(s: State, init: seq<Block>, calls: seq<Call>, lo: int, hi: int)
    requires Sound(s, init, lo, hi) && PermittedRun(s, calls, lo, hi) && 0 <= lo && hi <= U32 - 8
    ensures Sound(Run(s, calls, lo, hi), init, lo, hi)
    decreases |calls|
  {
    if calls != [] {
      StepSound(s, init, calls[0], lo, hi);
      RunSound(Step(s, calls[0], lo, hi), init, calls[1..], lo, hi);
    }
  }

  lemma StartSound(init: seq<Block>, lo: int, hi: int)
    requires Canonical(init, lo, hi)
    ensures Sound(State(init, []), init, lo, hi)
  {
  }

  /** However allocations and releases were interleaved, once nothing is outstanding the free list is exactly
      the list the heap started with. */
  lemma AllFreedRestores(init: seq<Block>, calls: seq<Call>, lo: int, hi: int)
    requires Canonical(init, lo, hi) && 0 <= lo && hi <= U32 - 8
    requires PermittedRun(State(init, []), calls, lo, hi)
    requires Run(State(init, []), calls, lo, hi).out == []
    ensures Run(State(init, []), calls, lo, hi).free == init
  {
    hide Canonical;
    StartSound(init, lo, hi);
    RunSound(State(init, []), init, calls, lo, hi);
    var t := Run(State(init, []), calls, lo, hi);
    forall a ensures Covers(t.free, a) <==> Covers(init, a) { }
    CanonicalUnique(t.free, init, lo, hi);
  }

  // ---------- Starting from any list ----------

  ghost predicate NotAfter(b: Block, c: Block) {
    b.addr + b.len <= c.addr
  }

  /** Ascending and aligned, but blocks may be adjacent. */
  ghost predicate Ordered(free: seq<Block>, lo: int, hi: int) {
    && (forall i :: 0 <= i < |free| ==> InHeap(free[i], lo, hi))
    && (forall i, j :: 0 <= i < j < |free| ==> NotAfter(free[i], free[j]))
  }

  lemma OrderedFront(free: seq<Block>, lo: int, hi: int)
    requires Ordered(free, lo, hi) && free != []
    ensures InHeap(free[0], lo, hi)
  {
  }

  lemma OrderedTail(free: seq<Block>, lo: int, hi: int)
    requires Ordered(free, lo, hi) && free != []
    ensures Ordered(free[1..], lo, hi) && Ordered(free[..|free| - 1], lo, hi)
  {
    var t, u := free[1..], free[..|free| - 1];
    forall i, j | 0 <= i < j < |t| ensures NotAfter(t[i], t[j]) { assert NotAfter(free[i + 1], free[j + 1]); }
    forall i, j | 0 <= i < j < |u| ensures NotAfter(u[i], u[j]) { assert NotAfter(free[i], free[j]); }
  }

  /** Requests that take the first `n` blocks, each as a whole. */
  function TakeCalls(free: seq<Block>, n: nat): seq<Call>
    requires n <= |free|
  {
    if n == 0 then [] else [CallGetMem(free[0].len)] + TakeCalls(free[1..], n - 1)
  }

  /** A request of the length of the first block takes just that. */
  lemma TakeFront(free: seq<Block>, out: seq<Block>, lo: int, hi: int)
    requires free != [] && InHeap(free[0], lo, hi) && 0 <= lo && hi <= U32 - 8
    ensures Sane(free[0].len) && Step(State(free, out), CallGetMem(free[0].len), lo, hi) ==
              State(free[1..], out + [free[0]])
  {
    SaneRounds(free[0].len);
    assert free[..0] + free[1..] == free[1..];
  }

  lemma RunCons(s: State, c: Call, calls: seq<Call>, lo: int, hi: int)
    requires Permitted(s, c) && PermittedRun(Step(s, c, lo, hi), calls, lo, hi)
    ensures PermittedRun(s, [c] + calls, lo, hi)
              && Run(s, [c] + calls, lo, hi) == Run(Step(s, c, lo, hi), calls, lo, hi)
  {
    hide Step, Permitted;
    assert ([c] + calls)[1..] == calls;
  }

  lemma {:induction false} Taken(free: seq<Block>, out: seq<Block>, n: nat, lo: int, hi: int)
    requires Ordered(free, lo, hi) && n <= |free| && 0 <= lo && hi <= U32 - 8
    ensures PermittedRun(State(free, out), TakeCalls(free, n), lo, hi)
    ensures Run(State(free, out), TakeCalls(free, n), lo, hi) == State(free[n..], out + free[..n])
    decreases n
  {
    hide Step, Ordered, Run, PermittedRun, TakeCalls;
    if n == 0 {
      TakeNothing(free, out, lo, hi);
    } else {
      var b, rest := free[0], free[1..];
      OrderedFront(free, lo, hi);
      TakeFront(free, out, lo, hi);
      OrderedTail(free, lo, hi);
      Taken(rest, out + [b], n - 1, lo, hi);
      RunCons(State(free, out), CallGetMem(b.len), TakeCalls(rest, n - 1), lo, hi);
      TakeMore(free, n);
      assert rest[n - 1..] == free[n..] && out + [b] + rest[..n - 1] == out + free[..n];
    }
  }

  lemma TakeNothing(free: seq<Block>, out: seq<Block>, lo: int, hi: int)
    ensures PermittedRun(State(free, out), TakeCalls(free, 0), lo, hi)
    ensures Run(State(free, out), TakeCalls(free, 0), lo, hi) == State(free[0..], out + free[..0])
  {
  }

  lemma TakeMore(free: seq<Block>, n: nat)
    requires 0 < n <= |free|
    ensures TakeCalls(free, n) == [CallGetMem(free[0].len)] + TakeCalls(free[1..], n - 1)
  {
  }

  /** Releases of `n` outstanding blocks, the last first. */
  function FreeCalls(n: nat): seq<Call> {
    if n == 0 then [] else [CallFree(n - 1)] + FreeCalls(n - 1)
  }

  /** Releasing a block below the whole free list. */
  lemma ReleaseFront(free: seq<Block>, out: seq<Block>, lo: int, hi: int)
    requires out != [] && free != [] && 0 <= lo && hi <= U32 - 8
    requires InHeap(out[|out| - 1], lo, hi) && NotAfter(out[|out| - 1], free[0])
    ensures
      var b := out[|out| - 1];
      var t := Step(State(free, out), CallFree(|out| - 1), lo, hi);
      && t.out == out[..|out| - 1] && t.free != [] && t.free[0].addr == b.addr
      && |t.free| == if b.addr + b.len == free[0].addr then |free| else |free| + 1
  {
    var b := out[|out| - 1];
    SaneRounds(b.len);
    assert Below(free, b.addr) == 0;
    assert out[..|out| - 1] + out[|out|..] == out[..|out| - 1];
  }

  lemma {:induction false} Returned(free: seq<Block>, out: seq<Block>, lo: int, hi: int)
    requires Ordered(out, lo, hi) && free != [] && 0 <= lo && hi <= U32 - 8
    requires out != [] ==> NotAfter(out[|out| - 1], free[0])
    ensures PermittedRun(State(free, out), FreeCalls(|out|), lo, hi)
    ensures
      var t := Run(State(free, out), FreeCalls(|out|), lo, hi);
      t.out == [] && |t.free| <= |free| + |out|
    decreases |out|
  {
    hide Step;
    if out != [] {
      var n := |out| - 1;
      assert InHeap(out[n], lo, hi);
      ReleaseFront(free, out, lo, hi);
      var t := Step(State(free, out), CallFree(n), lo, hi);
      OrderedTail(out, lo, hi);
      if n > 0 { assert NotAfter(out[n - 1], out[n]); }
      Returned(t.free, out[..n], lo, hi);
      assert FreeCalls(|out|)[1..] == FreeCalls(n);
    }
  }

  lemma {:induction false} RunAppend(s: State, c: seq<Call>, d: seq<Call>, lo: int, hi: int)
    requires PermittedRun(s, c, lo, hi) && PermittedRun(Run(s, c, lo, hi), d, lo, hi)
    ensures PermittedRun(s, c + d, lo, hi) && Run(s, c + d, lo, hi) == Run(Run(s, c, lo, hi), d, lo, hi)
    decreases |c|
  {
    hide Step, Permitted;
    if c == [] {
      assert c + d == d;
    } else {
      RunAppend(Step(s, c[0], lo, hi), c[1..], d, lo, hi);
      assert (c + d)[1..] == c[1..] + d;
    }
  }

  /** Once nothing is outstanding any more, the free list is what it was. */
  ghost predicate Restores(init: seq<Block>, calls: seq<Call>, lo: int, hi: int) {
    PermittedRun(State(init, []), calls, lo, hi) && Run(State(init, []), calls, lo, hi).out == [] ==>
      Run(State(init, []), calls, lo, hi).free == init
  }

  /** Two adjacent blocks: taking all blocks up to the first of them and giving them back leaves fewer blocks. */
  lemma AdjacentMerge(init: seq<Block>, i: int, lo: int, hi: int)
    requires Ordered(init, lo, hi) && 0 <= lo && hi <= U32 - 8
    requires 0 <= i < |init| - 1 && init[i].addr + init[i].len == init[i + 1].addr
    ensures !Restores(init, TakeCalls(init, i + 1) + FreeCalls(i + 1), lo, hi)
  {
    hide Step;
    var s := State(init, []);
    var free, out := init[i + 1..], init[..i + 1];
    Taken(init, [], i + 1, lo, hi);
    assert [] + out == out;
    assert InHeap(init[i], lo, hi);
    ReleaseFront(free, out, lo, hi);
    var t := Step(State(free, out), CallFree(i), lo, hi);
    forall k, l | 0 <= k < l < i ensures NotAfter(init[..i][k], init[..i][l]) { assert NotAfter(init[k], init[l]); }
    if i > 0 { assert NotAfter(init[i - 1], init[i]); }
    Returned(t.free, init[..i], lo, hi);
    assert out[..i] == init[..i];
    assert FreeCalls(i + 1)[1..] == FreeCalls(i);
    RunAppend(s, TakeCalls(init, i + 1), FreeCalls(i + 1), lo, hi);
  }

  /** Every run that releases all it was given restores the free list at the start, if and only if that list has
      no two adjacent blocks. */
  lemma RestoredIffCanonical(init: seq<Block>, lo: int, hi: int)
    requires Ordered(init, lo, hi) && 0 <= lo && hi <= U32 - 8
    ensures Canonical(init, lo, hi) <==> forall calls :: Restores(init, calls, lo, hi)
  {
    if Canonical(init, lo, hi) {
      forall calls ensures Restores(init, calls, lo, hi) {
        if PermittedRun(State(init, []), calls, lo, hi) && Run(State(init, []), calls, lo, hi).out == [] {
          AllFreedRestores(init, calls, lo, hi);
        }
      }
    } else {
      var i := AdjacentPair(init, lo, hi);
      AdjacentMerge(init, i, lo, hi);
    }
  }

  /** A list in order that is not canonical has two adjacent blocks next to each other. */
  lemma AdjacentPair(init: seq<Block>, lo: int, hi: int) returns (i: int)
    requires Ordered(init, lo, hi) && !Canonical(init, lo, hi)
    ensures 0 <= i < |init| - 1 && init[i].addr + init[i].len == init[i + 1].addr
  {
    var j: int;
    i, j :| 0 <= i < j < |init| && !Apart(init[i], init[j]);
    Gaps(init, i, j, lo, hi);
  }

  /** Between the end of one block and the start of a later one lie all blocks in between. */
  lemma Gaps(free: seq<Block>, i: int, j: int, lo: int, hi: int)
    requires Ordered(free, lo, hi) && 0 <= i < j < |free|
    ensures free[i].addr + free[i].len <= free[i + 1].addr
    ensures i + 1 < j ==> free[i + 1].addr < free[j].addr
  {
    assert NotAfter(free[i], free[i + 1]) && InHeap(free[i + 1], lo, hi);
    if i + 1 < j { assert NotAfter(free[i + 1], free[j]); }
  }
}
