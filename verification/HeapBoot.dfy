/** The free list that meminit builds from the memory map of the boot loader (system/meminit.c).

    `minheap` is the end of the Xinu image. */
module HeapBoot {
  import opened FreeLists

  /** struct mbmregion */
  datatype Region = Region(base: int, length: int, usable: bool)

  function End(r: Region): int {
    r.base + r.length
  }

  function TruncMb(x: int): int {
    x % U32 / 8 * 8
  }

  /** meminit.c:114-130: the block for a region that is put on the list. */
  function BlockOf(r: Region, minheap: int): Block {
    if r.base <= minheap && End(r) > minheap then Block(RoundMb(minheap), TruncMb(End(r) - minheap))
    else Block(RoundMb(r.base), TruncMb(r.length))
  }

  predicate Listed(r: Region, minheap: int) {
    r.usable && !(End(r) < minheap)
  }

  function BootList(mmap: seq<Region>, minheap: int): seq<Block> {
    if mmap == [] then []
    else
      var n := |mmap| - 1;
      BootList(mmap[..n], minheap) + (if Listed(mmap[n], minheap) then [BlockOf(mmap[n], minheap)] else [])
  }

  function MaxHeap(mmap: seq<Region>, minheap: int): int {
    if mmap == [] then minheap
    else
      var n := |mmap| - 1;
      var top := MaxHeap(mmap[..n], minheap);
      if mmap[n].usable && top < End(mmap[n]) then End(mmap[n]) else top
  }

  // ---------- Memory maps ----------

  ghost predicate RegionOK(r: Region) {
    r.usable ==> 0 <= r.base && r.base % 8 == 0 && r.length > 0 && r.length % 8 == 0 && End(r) < U32
  }

  ghost predicate InTurn(r: Region, s: Region) {
    r.usable && s.usable ==> End(r) <= s.base
  }

  /** The usable regions are aligned, lie below 4 GB, and come in ascending order. */
  ghost predicate GoodMap(mmap: seq<Region>) {
    && (forall i :: 0 <= i < |mmap| ==> RegionOK(mmap[i]))
    && (forall i, j :: 0 <= i < j < |mmap| ==> InTurn(mmap[i], mmap[j]))
  }

  /** A usable region ends just where the Xinu image does. */
  ghost predicate EndsAtImage(r: Region, minheap: int) {
    r.usable && minheap <= End(r) <= RoundMb(minheap)
  }

  ghost predicate Clean(mmap: seq<Region>, minheap: int) {
    forall i :: 0 <= i < |mmap| ==> !EndsAtImage(mmap[i], minheap)
  }

  ghost predicate Touch(r: Region, s: Region, minheap: int) {
    Listed(r, minheap) && s.usable && End(r) == s.base
  }

  // ---------- Which region each block is from ----------

  ghost predicate FromRegion(mmap: seq<Region>, minheap: int, at: seq<int>, j: int)
    requires |at| == |BootList(mmap, minheap)| && 0 <= j < |at|
  {
    && 0 <= at[j] < |mmap| && Listed(mmap[at[j]], minheap)
    && BootList(mmap, minheap)[j] == BlockOf(mmap[at[j]], minheap)
  }

  ghost predicate Increasing(at: seq<int>) {
    forall i, j :: 0 <= i < j < |at| ==> at[i] < at[j]
  }

  /** The blocks are those of the listed regions, in order. */
  lemma {:induction false} BootShape(mmap: seq<Region>, minheap: int) returns (at: seq<int>)
    ensures |at| == |BootList(mmap, minheap)| && Increasing(at)
    ensures forall j :: 0 <= j < |at| ==> FromRegion(mmap, minheap, at, j)
    ensures forall k :: 0 <= k < |mmap| && Listed(mmap[k], minheap) ==> k in at
  {
    hide Listed, BlockOf;
    if mmap == [] { return []; }
    var n := |mmap| - 1;
    var before := BootShape(mmap[..n], minheap);
    at := if Listed(mmap[n], minheap) then before + [n] else before;
    forall j | 0 <= j < |at| ensures FromRegion(mmap, minheap, at, j) {
      if j < |before| { assert FromRegion(mmap[..n], minheap, before, j); }
    }
    forall i, j | 0 <= i < j < |at| ensures at[i] < at[j] { assert FromRegion(mmap[..n], minheap, before, i); }
    forall k | 0 <= k < |mmap| && Listed(mmap[k], minheap) ensures k in at {
      if k < n { assert mmap[..n][k] == mmap[k]; } else { assert at[|before|] == n; }
    }
  }

  /** Where the block of a listed region lies. */
  lemma BlockRange(r: Region, minheap: int)
    requires RegionOK(r) && Listed(r, minheap) && 0 < minheap <= U32 - 8
    ensures
      var b := BlockOf(r, minheap);
      && b.addr % 8 == 0 && b.len % 8 == 0
      && (EndsAtImage(r, minheap) ==> b.addr < minheap || b.len == 0)
      && (!EndsAtImage(r, minheap) ==>
            b.len > 0 && b.addr + b.len == End(r) && minheap <= b.addr
            && b.addr == (if r.base < minheap then RoundMb(minheap) else r.base))
      && (forall a :: Inside(b, a) <==>
            r.base <= a < End(r) && (RoundMb(minheap) <= a || End(r) == minheap))
  {
    hide RoundMb, TruncMb;
    Rounds(minheap);
    if r.base <= minheap && End(r) > minheap {
      Truncs(End(r) - minheap);
      Aligned(End(r) - minheap, TruncMb(End(r) - minheap), RoundMb(minheap) - minheap, End(r) - RoundMb(minheap));
      if r.base == minheap { assert minheap % 8 == 0; }
    } else {
      Rounds(r.base);
      Truncs(r.length);
      if r.base > minheap { NextUp(minheap, RoundMb(minheap), r.base); }
    }
  }

  /** `x` is `up` and a multiple of 8, and `t` is `x` rounded down. */
  lemma Aligned(x: int, t: int, up: int, m: int)
    requires 0 < x == up + m && 0 <= up < 8 && m % 8 == 0 && x - 8 < t <= x && t % 8 == 0
    ensures t == m
  {
  }

  lemma NextUp(x: int, up: int, y: int)
    requires x <= up < x + 8 && up % 8 == 0 && y % 8 == 0 && x < y
    ensures up <= y
  {
  }

  lemma Rounds(x: int)
    requires 0 <= x <= U32 - 8
    ensures x <= RoundMb(x) < x + 8 && RoundMb(x) % 8 == 0 && (x % 8 == 0 ==> RoundMb(x) == x)
  {
  }

  lemma Truncs(x: int)
    requires 0 <= x < U32
    ensures x - 8 < TruncMb(x) <= x && TruncMb(x) % 8 == 0 && (x % 8 == 0 ==> TruncMb(x) == x)
  {
  }

  // ---------- What the list is ----------

  ghost predicate GivesByte(r: Region, minheap: int, a: int) {
    r.usable && r.base <= a < End(r) && (RoundMb(minheap) <= a || End(r) == minheap)
  }

  /** The list covers the usable memory behind the image, and all of a region that ends at the image. */
  lemma BootCovers(mmap: seq<Region>, minheap: int, a: int)
    requires GoodMap(mmap) && 0 < minheap <= U32 - 8
    ensures Covers(BootList(mmap, minheap), a) <==> exists k :: 0 <= k < |mmap| && GivesByte(mmap[k], minheap, a)
  {
    hide RegionOK, BlockOf, RoundMb, InTurn;
    var at := BootShape(mmap, minheap);
    var free := BootList(mmap, minheap);
    if Covers(free, a) {
      var j :| 0 <= j < |free| && Inside(free[j], a);
      assert FromRegion(mmap, minheap, at, j);
      BlockRange(mmap[at[j]], minheap);
      assert GivesByte(mmap[at[j]], minheap, a);
    }
    if k :| 0 <= k < |mmap| && GivesByte(mmap[k], minheap, a) {
      Rounds(minheap);
      BlockRange(mmap[k], minheap);
      var j :| 0 <= j < |at| && at[j] == k;
      assert FromRegion(mmap, minheap, at, j);
      assert Inside(free[j], a);
    }
  }

  /** No part of the image is given away, if and only if no usable region ends just where the image does. */
  lemma BootBehindImageIff(mmap: seq<Region>, minheap: int)
    requires GoodMap(mmap) && 0 < minheap <= U32 - 8
    ensures (forall a :: Covers(BootList(mmap, minheap), a) ==> minheap <= a) <==>
            (forall k :: 0 <= k < |mmap| && mmap[k].usable ==> End(mmap[k]) != minheap)
  {
    hide RoundMb, BootList, Covers;
    Rounds(minheap);
    if forall k :: 0 <= k < |mmap| && mmap[k].usable ==> End(mmap[k]) != minheap {
      forall a | Covers(BootList(mmap, minheap), a) ensures minheap <= a { BootCovers(mmap, minheap, a); }
    } else {
      var k :| 0 <= k < |mmap| && mmap[k].usable && End(mmap[k]) == minheap;
      var a := mmap[k].base;
      assert RegionOK(mmap[k]) && GivesByte(mmap[k], minheap, a);
      BootCovers(mmap, minheap, a);
    }
  }

  /** The list is one of nonempty blocks in order behind the image, if and only if no usable region ends just
      where the image does. */
  lemma BootOrderedIff(mmap: seq<Region>, minheap: int, hi: int)
    requires GoodMap(mmap) && 0 < minheap <= U32 - 8 && forall k :: 0 <= k < |mmap| && mmap[k].usable ==>
              End(mmap[k]) <= hi
    ensures Ordered(BootList(mmap, minheap), minheap, hi) <==> Clean(mmap, minheap)
  {
    hide RegionOK, BlockOf, RoundMb, BootList, EndsAtImage;
    var at := BootShape(mmap, minheap);
    var free := BootList(mmap, minheap);
    forall j | 0 <= j < |free|
      ensures FromRegion(mmap, minheap, at, j) && (InHeap(free[j], minheap, hi) <==> !EndsAtImage(mmap[at[j]], minheap))
    {
      assert FromRegion(mmap, minheap, at, j);
      assert RegionOK(mmap[at[j]]);
      BlockRange(mmap[at[j]], minheap);
      EndIn(mmap[at[j]], minheap, hi);
    }
    if Clean(mmap, minheap) {
      forall i, j | 0 <= i < j < |free| ensures NotAfter(free[i], free[j]) {
        InOrder(mmap, minheap, at, i, j);
      }
    } else {
      var k :| 0 <= k < |mmap| && EndsAtImage(mmap[k], minheap);
      ImageListed(mmap[k], minheap);
      var j :| 0 <= j < |at| && at[j] == k;
      assert !InHeap(free[j], minheap, hi);
    }
  }

  lemma EndIn(r: Region, minheap: int, hi: int)
    requires Listed(r, minheap) && (r.usable ==> End(r) <= hi)
    ensures End(r) <= hi
  {
  }

  lemma ImageListed(r: Region, minheap: int)
    requires EndsAtImage(r, minheap)
    ensures Listed(r, minheap)
  {
  }

  lemma InOrder(mmap: seq<Region>, minheap: int, at: seq<int>, i: int, j: int)
    requires GoodMap(mmap) && 0 < minheap <= U32 - 8 && Clean(mmap, minheap)
    requires |at| == |BootList(mmap, minheap)| && Increasing(at) && 0 <= i < j < |at|
    requires FromRegion(mmap, minheap, at, i) && FromRegion(mmap, minheap, at, j)
    ensures
      var b, c := BootList(mmap, minheap)[i], BootList(mmap, minheap)[j];
      && b.addr + b.len == End(mmap[at[i]]) && c.addr == mmap[at[j]].base && NotAfter(b, c)
  {
    hide BlockOf, RoundMb, BootList, EndsAtImage;
    Rounds(minheap);
    assert RegionOK(mmap[at[i]]) && RegionOK(mmap[at[j]]) && InTurn(mmap[at[i]], mmap[at[j]]);
    BlockRange(mmap[at[i]], minheap);
    BlockRange(mmap[at[j]], minheap);
  }

  /** Two blocks are apart unless their regions touch. */
  ghost predicate ApartIff(mmap: seq<Region>, minheap: int, at: seq<int>, i: int, j: int)
    requires |at| == |BootList(mmap, minheap)| && 0 <= i < j < |at|
  {
    && 0 <= at[i] < at[j] < |mmap|
    && (Apart(BootList(mmap, minheap)[i], BootList(mmap, minheap)[j]) <==> !Touch(mmap[at[i]], mmap[at[j]], minheap))
  }

  lemma BootApart(mmap: seq<Region>, minheap: int, at: seq<int>, i: int, j: int)
    requires GoodMap(mmap) && 0 < minheap <= U32 - 8 && Clean(mmap, minheap)
    requires |at| == |BootList(mmap, minheap)| && Increasing(at) && 0 <= i < j < |at|
    requires FromRegion(mmap, minheap, at, i) && FromRegion(mmap, minheap, at, j)
    ensures ApartIff(mmap, minheap, at, i, j)
  {
    hide BlockOf, RoundMb, BootList, EndsAtImage;
    InOrder(mmap, minheap, at, i, j);
  }

  /** ... and then it is canonical if and only if no two usable regions behind the image touch. */
  lemma BootCanonicalIff(mmap: seq<Region>, minheap: int, hi: int)
    requires GoodMap(mmap) && 0 < minheap <= U32 - 8
    requires forall k :: 0 <= k < |mmap| && mmap[k].usable ==> End(mmap[k]) <= hi
    requires Clean(mmap, minheap)
    ensures Canonical(BootList(mmap, minheap), minheap, hi) <==>
            forall i, j :: 0 <= i < j < |mmap| ==> !Touch(mmap[i], mmap[j], minheap)
  {
    hide BlockOf, RoundMb, BootList, EndsAtImage, RegionOK, InTurn, Clean, GoodMap, FromRegion, Touch, Apart, InHeap;
    var at := BootShape(mmap, minheap);
    var free := BootList(mmap, minheap);
    BootOrderedIff(mmap, minheap, hi);
    forall i, j | 0 <= i < j < |free| ensures ApartIff(mmap, minheap, at, i, j) { BootApart(mmap, minheap, at, i, j); }
    if forall i, j :: 0 <= i < j < |mmap| ==> !Touch(mmap[i], mmap[j], minheap) {
      forall i, j | 0 <= i < j < |free| ensures Apart(free[i], free[j]) { assert ApartIff(mmap, minheap, at, i, j); }
    } else {
      var i, j :| 0 <= i < j < |mmap| && Touch(mmap[i], mmap[j], minheap);
      TouchListed(mmap, i, j, minheap);
      var k :| 0 <= k < |at| && at[k] == i;
      var l :| 0 <= l < |at| && at[l] == j;
      assert ApartIff(mmap, minheap, at, k, l);
    }
  }

  lemma TouchListed(mmap: seq<Region>, i: int, j: int, minheap: int)
    requires GoodMap(mmap) && 0 <= i < j < |mmap| && Touch(mmap[i], mmap[j], minheap)
    ensures Listed(mmap[i], minheap) && Listed(mmap[j], minheap)
  {
    assert RegionOK(mmap[j]);
  }

  lemma {:induction false} MaxHeapBounds(mmap: seq<Region>, minheap: int)
    ensures minheap <= MaxHeap(mmap, minheap)
    ensures forall k :: 0 <= k < |mmap| && mmap[k].usable ==> End(mmap[k]) <= MaxHeap(mmap, minheap)
    ensures MaxHeap(mmap, minheap) == minheap
              || exists k :: 0 <= k < |mmap| && mmap[k].usable && MaxHeap(mmap, minheap) == End(mmap[k])
    ensures GoodMap(mmap) && minheap <= U32 - 8 ==> MaxHeap(mmap, minheap) <= U32 - 8
  {
    if mmap != [] {
      var n := |mmap| - 1;
      GoodPart(mmap, n);
      MaxHeapBounds(mmap[..n], minheap);
      assert forall k :: 0 <= k < n ==> mmap[..n][k] == mmap[k];
      if GoodMap(mmap) { assert RegionOK(mmap[n]); }
    }
  }

  lemma CleanPart(mmap: seq<Region>, minheap: int, n: int)
    requires 0 <= n <= |mmap| && GoodMap(mmap) && Clean(mmap, minheap) && 0 < minheap <= U32 - 8
    ensures Ordered(BootList(mmap[..n], minheap), minheap, MaxHeap(mmap[..n], minheap))
  {
    var part := mmap[..n];
    GoodPart(mmap, n);
    MaxHeapBounds(part, minheap);
    assert Clean(part, minheap);
    BootOrderedIff(part, minheap, MaxHeap(part, minheap));
  }

  lemma GoodPart(mmap: seq<Region>, n: int)
    requires 0 <= n <= |mmap|
    ensures GoodMap(mmap) ==> GoodMap(mmap[..n])
  {
    var part := mmap[..n];
    if GoodMap(mmap) {
      forall i, j | 0 <= i < j < |part| ensures InTurn(part[i], part[j]) { assert InTurn(mmap[i], mmap[j]); }
    }
  }

  /** Every run on the heap that meminit sets up restores its free list once all is released, if and only if no two
      usable regions behind the image touch. */
  lemma BootRestoredIff(mmap: seq<Region>, minheap: int)
    requires GoodMap(mmap) && 0 < minheap <= U32 - 8 && Clean(mmap, minheap)
    ensures (forall calls :: Restores(BootList(mmap, minheap), calls, minheap, MaxHeap(mmap, minheap))) <==>
            (forall i, j :: 0 <= i < j < |mmap| ==> !Touch(mmap[i], mmap[j], minheap))
  {
    hide Restores, BootList, Touch, Clean, Ordered;
    var hi := MaxHeap(mmap, minheap);
    MaxHeapBounds(mmap, minheap);
    BootOrderedIff(mmap, minheap, hi);
    BootCanonicalIff(mmap, minheap, hi);
    RestoredIffCanonical(BootList(mmap, minheap), minheap, hi);
  }
}
