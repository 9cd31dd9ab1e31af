/** How many blocks are free, and what can be read from the disk alone. */
module LfsCount {
  import opened LfsDisk
  import opened LfsState
  import opened LfsSteps
  import opened Sequences

  // ---------- Counting blocks ----------

  function Lengths(lists: seq<seq<int>>, k: nat): nat
    requires k <= |lists|
    decreases |lists| - k
  {
    if k == |lists| then 0 else |lists[k]| + Lengths(lists, k + 1)
  }

  lemma {:induction false} LengthsFrom(lists: seq<seq<int>>, lists': seq<seq<int>>, k: nat)
    requires k <= |lists| == |lists'| && forall j :: k <= j < |lists| ==> lists[j] == lists'[j]
    ensures Lengths(lists, k) == Lengths(lists', k)
    decreases |lists| - k
  {
    if k < |lists| { LengthsFrom(lists, lists', k + 1); }
  }

  lemma {:induction false} NoDupCount(s: seq<int>)
    requires NoDup(s)
    ensures |set x | x in s| == |s|
  {
    if s == [] {
      assert (set x | x in s) == {};
    } else {
      var t := s[1..];
      forall i, j | 0 <= i < j < |t| ensures Differ(t, i, j) { assert Differ(s, i + 1, j + 1); }
      NoDupCount(t);
      forall j | 0 <= j < |t| ensures t[j] != s[0] { assert Differ(s, 0, j + 1); }
      assert (set x | x in s) == (set x | x in t) + {s[0]};
    }
  }

  function Interval(a: int, n: int): (s: set<int>)
    ensures forall b :: b in s <==> a <= b < n
    decreases n - a
  {
    if a < n then Interval(a, n - 1) + {n - 1} else {}
  }

  lemma {:induction false} IntervalCount(a: int, n: int)
    requires a <= n
    ensures |Interval(a, n)| == n - a
    decreases n - a
  {
    if a < n { IntervalCount(a, n - 1); }
  }

  lemma {:induction false} CountFrom(first: nat, lists: seq<seq<int>>, free: seq<int>, place: seq<Place>, k: nat)
    requires Part(first, lists, free, place) && first <= |place| && k <= |lists| && forall f :: 0 <= f < k ==>
              lists[f] == []
    ensures |free| + Lengths(lists, k) == |place| - first
    decreases |lists| - k
  {
    if k == |lists| {
      AllFree(first, lists, free, place);
    } else {
      hide Part, GivePlace;
      GivePart(first, lists, free, place, k, false);
      var lists' := lists[k := []];
      CountFrom(first, lists', free + lists[k], GivePlace(|lists[k]|, |free|, place, k, false), k + 1);
      LengthsFrom(lists, lists', k + 1);
    }
  }

  lemma AllFree(first: nat, lists: seq<seq<int>>, free: seq<int>, place: seq<Place>)
    requires Part(first, lists, free, place) && first <= |place| && forall f :: 0 <= f < |lists| ==> lists[f] == []
    ensures |free| == |place| - first
  {
    forall i, j | 0 <= i < j < |free| ensures Differ(free, i, j) {
      assert FreeAt(free, place, i) && FreeAt(free, place, j);
    }
    NoDupCount(free);
    IntervalCount(first, |place|);
    forall b | first <= b < |place| ensures b in free { assert PlaceOK(first, lists, free, place, b); }
    forall b | b in free ensures first <= b < |place| {
      var j :| 0 <= j < |free| && free[j] == b;
      assert FreeAt(free, place, j);
    }
    assert (set x | x in free) == Interval(first, |place|);
  }

  /** The blocks that a file of so many bytes needs. */
  function DataNeed(size: nat): nat {
    (size + BLKSIZ - 1) / BLKSIZ
  }

  function IndexNeed(size: nat): nat {
    (size + IDATA - 1) / IDATA
  }

  function DataTotal(texts: seq<seq<byte>>): nat {
    if texts == [] then 0 else DataNeed(|texts[0]|) + DataTotal(texts[1..])
  }

  function IndexTotal(texts: seq<seq<byte>>): nat {
    if texts == [] then 0 else IndexNeed(|texts[0]|) + IndexTotal(texts[1..])
  }

  lemma TightNeeds(fl: File)
    requires Tight(fl)
    ensures |fl.blocks| == DataNeed(|fl.text|) && |fl.chain| == IndexNeed(|fl.text|)
  {
  }

  lemma {:induction false} TotalsFrom(files: seq<File>, texts: seq<seq<byte>>, k: nat)
    requires |texts| == |files| && k <= |files| && forall f :: 0 <= f < |files| ==>
              TightAt(files, f) && texts[f] == files[f].text
    ensures Lengths(Blocks(files), k) == DataTotal(texts[k..]) && Lengths(Chains(files), k) == IndexTotal(texts[k..])
    decreases |files| - k
  {
    hide Tight;
    if k < |files| {
      TotalsFrom(files, texts, k + 1);
      assert TightAt(files, k);
      TightNeeds(files[k]);
      assert texts[k..][1..] == texts[k + 1..];
    }
  }

  /** Blocks are neither lost nor made: what the files do not need is free. */
  lemma BlocksConserved(fs: Fs, lay: Layout, texts: seq<seq<byte>>)
    requires Good(fs, lay, -1) && DataStart(|fs.ibs|) <= |fs.data|
    requires |texts| == |lay.files| && forall f :: 0 <= f < |lay.files| ==> texts[f] == lay.files[f].text
    ensures |lay.dfree| + DataTotal(texts) == |fs.data| - DataStart(|fs.ibs|)
    ensures |lay.ifree| + IndexTotal(texts) == |fs.ibs|
  {
    hide Part, FreeOK, FileAt, OwnerOK, Tight;
    CountFrom(0, Chains(lay.files), lay.ifree, lay.iplace, 0);
    CountFrom(DataStart(|fs.ibs|), Blocks(lay.files), lay.dfree, lay.dplace, 0);
    TotalsFrom(lay.files, texts, 0);
    assert texts[0..] == texts;
  }

  lemma {:induction false} TotalUpdate(texts: seq<seq<byte>>, f: int, text: seq<byte>)
    requires 0 <= f < |texts|
    ensures DataTotal(texts[f := text]) == DataTotal(texts) - DataNeed(|texts[f]|) + DataNeed(|text|)
    ensures IndexTotal(texts[f := text]) == IndexTotal(texts) - IndexNeed(|texts[f]|) + IndexNeed(|text|)
  {
    hide DataNeed, IndexNeed;
    var t' := texts[f := text];
    if f == 0 {
      assert t'[1..] == texts[1..];
    } else {
      assert t'[1..] == texts[1..][f - 1 := text];
      TotalUpdate(texts[1..], f - 1, text);
    }
  }

  // ---------- Each block in one place ----------

  ghost predicate InList(lists: seq<seq<int>>, f: int, b: int) {
    0 <= f < |lists| && b in lists[f]
  }

  /** Block `b` is either on the free list or in the list of exactly one file, and no list holds it twice. */
  ghost predicate Once(lists: seq<seq<int>>, free: seq<int>, b: int) {
    && (b in free || exists f :: InList(lists, f, b))
    && !(b in free && exists f :: InList(lists, f, b))
    && (forall f, g :: InList(lists, f, b) && InList(lists, g, b) ==> f == g)
    && NoDup(free) && (forall f :: InList(lists, f, b) ==> NoDup(lists[f]))
  }

  lemma PartOnce(first: int, lists: seq<seq<int>>, free: seq<int>, place: seq<Place>, b: int)
    requires Part(first, lists, free, place) && first <= b && 0 <= b < |place|
    ensures Once(lists, free, b)
  {
    assert PlaceOK(first, lists, free, place, b);
    forall f | InList(lists, f, b) ensures place[b].Used? && place[b].file == f {
      var j :| 0 <= j < |lists[f]| && lists[f][j] == b;
      assert UsedAt(lists, place, f, j);
    }
    if b in free {
      var j :| 0 <= j < |free| && free[j] == b;
      assert FreeAt(free, place, j);
    }
    if place[b].Used? { assert InList(lists, place[b].file, b); }
    forall i, j | 0 <= i < j < |free| ensures Differ(free, i, j) {
      assert FreeAt(free, place, i) && FreeAt(free, place, j);
    }
    forall f | InList(lists, f, b) ensures NoDup(lists[f]) { PartNoDup(first, lists, free, place, f); }
  }

  /** Every index block and every sector of the data area is in exactly one place. */
  lemma EachBlockOnce(fs: Fs, lay: Layout, b: int)
    requires Good(fs, lay, -1)
    ensures 0 <= b < |fs.ibs| ==> Once(Chains(lay.files), lay.ifree, b)
    ensures DataStart(|fs.ibs|) <= b < |fs.data| ==> Once(Blocks(lay.files), lay.dfree, b)
  {
    hide Part, Once, FreeOK, FileAt, TightAt, OwnerOK;
    if 0 <= b < |fs.ibs| { PartOnce(0, Chains(lay.files), lay.ifree, lay.iplace, b); }
    if DataStart(|fs.ibs|) <= b < |fs.data| {
      PartOnce(DataStart(|fs.ibs|), Blocks(lay.files), lay.dfree, lay.dplace, b);
    }
  }

  // ---------- What the disk says ----------

  /** The index block reached from `b` by following `j` links. */
  function Hop(ibs: seq<IBlock>, b: int, j: nat): int
    decreases j
  {
    if j == 0 || !(0 <= b < |ibs|) then b else Hop(ibs, ibs[b].next, j - 1)
  }

  /** Byte `k` of the file, found from its directory entry by following the links on disk. */
  function ByteOnDisk(ibs: seq<IBlock>, data: seq<Sector>, e: Entry, k: nat): byte {
    var b := Hop(ibs, e.ilist, k / IDATA);
    if !(0 <= b < |ibs|) || |ibs[b].dba| != IBLEN then 0
    else
      var d := ibs[b].dba[k % IDATA / BLKSIZ];
      if 0 <= d < |data| then data[d][k % BLKSIZ] else 0
  }

  function ReadFile(ibs: seq<IBlock>, data: seq<Sector>, e: Entry): seq<byte>
    requires e.size >= 0
  {
    seq(e.size, k requires 0 <= k < e.size => ByteOnDisk(ibs, data, e, k))
  }

  lemma {:induction false} HopChain(ibs: seq<IBlock>, fl: File, c: nat, j: nat)
    requires c + j < |fl.chain|
    requires forall i :: 0 <= i < |fl.chain| ==>
              0 <= fl.chain[i] < |ibs| && ibs[fl.chain[i]].next == Nth(fl.chain, i + 1)
    ensures Hop(ibs, fl.chain[c], j) == fl.chain[c + j]
    decreases j
  {
    if j > 0 { HopChain(ibs, fl, c + 1, j - 1); }
  }

  /** Once a file is closed, the disk alone gives back exactly its bytes. */
  lemma ClosedOnDisk(fs: Fs, lay: Layout, f: int)
    requires Good(fs, lay, -1) && 0 <= f < |lay.files| && lay.files[f].cb == -1
    ensures f < |fs.dir.files| && fs.dir.files[f].size >= 0
              && ReadFile(fs.ibs, fs.data, fs.dir.files[f]) == lay.files[f].text
  {
    hide Part, FreeOK, OwnerOK, Holds, IbOf, Tight;
    var fl := lay.files[f];
    var e := fs.dir.files[f];
    assert FileAt(fs, lay, f) && TightAt(lay.files, f);
    assert FileOK(fs.ibs, fs.data, e, Idle(), fl);
    FileOnDisk(fs.ibs, fs.data, e, fl);
  }

  lemma FileOnDisk(ibs: seq<IBlock>, data: seq<Sector>, e: Entry, fl: File)
    requires FileOK(ibs, data, e, Idle(), fl) && Tight(fl)
    ensures e.size >= 0 && ReadFile(ibs, data, e) == fl.text
  {
    hide Holds, IbOf, ByteOnDisk, Tight, FileOK;
    TextFits(ibs, data, e, Idle(), fl);
    forall k | 0 <= k < |fl.text| ensures ByteOnDisk(ibs, data, e, k) == fl.text[k] { ByteFound(ibs, data, e, fl, k); }
  }

  lemma ByteFound(ibs: seq<IBlock>, data: seq<Sector>, e: Entry, fl: File, k: int)
    requires FileOK(ibs, data, e, Idle(), fl) && Tight(fl) && 0 <= k < |fl.text|
    ensures ByteOnDisk(ibs, data, e, k) == fl.text[k]
  {
    hide Holds, IbOf, CacheOK, Hop;
    var j := k / BLKSIZ;
    var c := k / IDATA;
    ChainLinks(ibs, data, e, fl);
    HopChain(ibs, fl, 0, c);
    assert IndexAt(ibs, Idle(), fl, c);
    IbParts(fl, c, k % IDATA / BLKSIZ);
    assert IBLEN * c + k % IDATA / BLKSIZ == j;
    assert DataAt(data, Idle(), fl, j);
    HoldsAt(data[fl.blocks[j]], fl.text, k);
  }

  lemma ChainLinks(ibs: seq<IBlock>, data: seq<Sector>, e: Entry, fl: File)
    requires FileOK(ibs, data, e, Idle(), fl)
    ensures forall i :: 0 <= i < |fl.chain| ==>
              0 <= fl.chain[i] < |ibs| && ibs[fl.chain[i]].next == Nth(fl.chain, i + 1)
  {
    hide Holds, CacheOK, IbOf;
    forall i | 0 <= i < |fl.chain| ensures 0 <= fl.chain[i] < |ibs| && ibs[fl.chain[i]].next == Nth(fl.chain, i + 1) {
      assert IndexAt(ibs, Idle(), fl, i);
      IbParts(fl, i, 0);
    }
  }

  lemma IbParts(fl: File, j: int, i: int)
    requires 0 <= j && 0 <= i < IBLEN
    ensures IbOf(fl, j).next == Nth(fl.chain, j + 1) && |IbOf(fl, j).dba| == IBLEN
              && IbOf(fl, j).dba[i] == Nth(fl.blocks, IBLEN * j + i)
  {
  }

  lemma HoldsAt(s: Sector, text: seq<byte>, k: int)
    requires 0 <= k < |text| && Holds(s, text, k / BLKSIZ)
    ensures s[k % BLKSIZ] == text[k]
  {
    assert HoldsByte(s, text, k / BLKSIZ, k % BLKSIZ);
  }
}
