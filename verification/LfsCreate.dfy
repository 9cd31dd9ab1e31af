/** lfscreate: the free lists of an empty file system. */
module LfsCreate {
  import opened LfsDisk
  import opened LfsSpec
  import opened LfsState
  import opened LfsSteps

  /** Every index block and every data block is free; the first of each is on top. */
  function EmptyLayout(ni: int, ns: int): Layout
    requires 0 <= ni && DataStart(ni) <= ns
  {
    var first := DataStart(ni);
    Layout([], seq(ni, j requires 0 <= j < ni => ni - 1 - j),
        seq(ns - first, j requires 0 <= j < ns - first => ns - 1 - j),
           seq(ni, b requires 0 <= b < ni => Free(ni - 1 - b)),
           seq(ns, b requires 0 <= b < ns => if b < first then Reserved else Free(ns - 1 - b)))
  }

  ghost predicate LinkedIbs(ibs: seq<IBlock>, n: int) {
    0 <= n <= |ibs| && forall b :: 0 <= b < n ==> IbLink(ibs, b)
  }

  ghost predicate IbLink(ibs: seq<IBlock>, b: int)
    requires 0 <= b < |ibs|
  {
    ibs[b].next == if b == |ibs| - 1 then NULLID else b + 1
  }

  ghost predicate LinkedData(data: seq<Sector>, first: int, n: int) {
    0 <= first <= n <= |data| && forall b :: first <= b < n ==> DataLink(data, b)
  }

  ghost predicate DataLink(data: seq<Sector>, b: int)
    requires 0 <= b < |data|
  {
    Signed(data[b]) == if b == |data| - 1 then NULLID else b + 1
  }

  /** The two lists of links make a file system without files in which all blocks are free. */
  lemma EmptyGood(fs: Fs)
    requires 0 < |fs.ibs| < 0x8000_0000 && 0 < DataStart(|fs.ibs|) < |fs.data| < 0x8000_0000
    requires LinkedIbs(fs.ibs, |fs.ibs|) && LinkedData(fs.data, DataStart(|fs.ibs|), |fs.data|)
    requires fs.dir == Dir(DataStart(|fs.ibs|), 0, []) && fs.cbs == []
    ensures Good(fs, EmptyLayout(|fs.ibs|, |fs.data|), -1)
  {
    hide Signed;
    var lay := EmptyLayout(|fs.ibs|, |fs.data|);
    forall j | 0 <= j < |lay.ifree| ensures IFreeAt(fs.ibs, lay.ifree, j) { assert IbLink(fs.ibs, lay.ifree[j]); }
    forall j | 0 <= j < |lay.dfree| ensures DFreeAt(fs.data, lay.dfree, j) { assert DataLink(fs.data, lay.dfree[j]); }
  }

  lemma TopOnDisk(ibs: seq<IBlock>, data: seq<Sector>, dir: Dir, ifree: seq<int>, dfree: seq<int>)
    requires FreeOK(ibs, data, dir, ifree, dfree) && ifree != []
    ensures |ibs| > 0
  {
    hide Signed;
    assert IFreeAt(ibs, ifree, 0);
  }

  /** Without index blocks there is no file system: the directory says that block 0 is free. */
  lemma NoIndexBlocks(fs: Fs, lay: Layout)
    requires fs.ibs == [] && fs.dir.ifree == 0
    ensures !Good(fs, lay, -1)
  {
    hide Signed, Part, FileAt, OwnerOK;
    if FreeOK(fs.ibs, fs.data, fs.dir, lay.ifree, lay.dfree) && lay.ifree != [] {
      TopOnDisk(fs.ibs, fs.data, fs.dir, lay.ifree, lay.dfree);
    }
  }

  /** lfscreate.c:34, in unsigned arithmetic: from -6 to 0 index blocks take no sector. */
  function IbSectors(lfiblks: int): int {
    (lfiblks + 6) % 0x1_0000_0000 / 7
  }

  /** `disk` holds anything; the file system takes all its sectors.  With no sector left for data, the count of data
      blocks is zero or wraps, and the code goes on writing behind the disk. */
  method Lfscreate(disk: array<Sector>, lfiblks: int, dsiz: nat)
    returns (r: int, overruns: bool, dsk: Disk, dir: Dir)
    requires Int32(lfiblks) && dsiz < 0x1_0000_0000 && disk.Length == dsiz / BLKSIZ
    modifies disk
    ensures overruns <==> IbSectors(lfiblks) <= disk.Length / 2 && disk.Length <= IbSectors(lfiblks) + 1
    ensures !overruns ==> (r == SYSERR <==> IbSectors(lfiblks) > disk.Length / 2) && (r == SYSERR || r == OK)
    ensures r == SYSERR && !overruns ==> disk[..] == old(disk[..])
    ensures dsk.sectors == disk && fresh(dsk) && dsk.ni == IbSectors(lfiblks) * 7
    ensures r == OK && !overruns ==> dsk.Valid()
    ensures r == OK && !overruns ==>
              ((exists lay :: Good(Fs(dsk.Index(), dsk.Data(), dir, []), lay, -1)) <==> IbSectors(lfiblks) >= 1)
    ensures r == OK && !overruns && dsk.ni > 0 ==>
              Good(Fs(dsk.Index(), dsk.Data(), dir, []), EmptyLayout(dsk.ni, disk.Length), -1)
  {
    hide Signed, Good, Encode32;
    var sectors := dsiz / BLKSIZ;
    var ibsectors := IbSectors(lfiblks);
    var n := ibsectors * 7;
    dsk := new Disk.Over(disk, n);
    dir := Dir(0, 0, []);
    if ibsectors > sectors / 2 {
      return SYSERR, false, dsk, dir;
    }
    var dbindex := ibsectors + 1;
    dir := dir.(dfree := dbindex);
    if sectors - ibsectors - 1 <= 0 {
      return OK, true, dsk, dir;
    }
    CreateIndex(dsk);
    CreateData(dsk);
    ghost var fs := Fs(dsk.Index(), dsk.Data(), dir, []);
    if ibsectors > 0 {
      EmptyGood(fs);
    } else {
      forall lay ensures !Good(fs, lay, -1) { NoIndexBlocks(fs, lay); }
    }
    r, overruns := OK, false;
  }

  /** lfscreate.c:52-60.  Without index blocks the last one is written all the same, as if there were some. */
  method CreateIndex(dsk: Disk)
    requires dsk.Valid() && dsk.ni < 0x8000_0000 && 2 <= dsk.sectors.Length
    modifies dsk.sectors
    ensures dsk.Valid() && LinkedIbs(dsk.Index(), dsk.ni)
  {
    var iblock := ClearIb(0);
    var i := 0;
    while i < dsk.ni - 1
      invariant 0 <= i && (i < dsk.ni || i == dsk.ni == 0)
      invariant dsk.Valid() && LinkedIbs(dsk.Index(), i) && |iblock.dba| == IBLEN
                  && iblock == ClearIb(0).(next := iblock.next)
    {
      ghost var was := dsk.Index();
      iblock := iblock.(next := i + 1);
      dsk.Lfibput(i, iblock);
      forall b | 0 <= b < i + 1 ensures IbLink(dsk.Index(), b) { if b < i { assert IbLink(was, b); } }
      i := i + 1;
    }
    ghost var was := dsk.Index();
    iblock := iblock.(next := NULLID);
    if dsk.ni == 0 {
      var some := new Disk.Over(dsk.sectors, 7);
      some.Lfibput(i, iblock);
    } else {
      dsk.Lfibput(i, iblock);
      forall b | 0 <= b < dsk.ni ensures IbLink(dsk.Index(), b) { if b < dsk.ni - 1 { assert IbLink(was, b); } }
    }
  }

  /** lfscreate.c:62-71 */
  method CreateData(dsk: Disk)
    requires dsk.Valid() && DataStart(dsk.ni) < dsk.sectors.Length
    modifies dsk.sectors
    ensures dsk.Valid() && dsk.Index() == old(dsk.Index())
              && LinkedData(dsk.Data(), DataStart(dsk.ni), dsk.sectors.Length)
  {
    hide Signed, Encode32;
    var dbindex := DataStart(dsk.ni);
    ghost var first := dbindex;
    var dblks := dsk.sectors.Length - dbindex;
    for i := 0 to dblks - 1
      invariant dsk.Valid() && dsk.Index() == old(dsk.Index()) && dbindex == first + i
                  && LinkedData(dsk.Data(), first, dbindex)
    {
      ghost var was := dsk.Data();
      LinkSays(dbindex + 1);
      dsk.Write(LinkBlock(dbindex + 1), dbindex);
      dbindex := dbindex + 1;
      forall b | first <= b < dbindex ensures DataLink(dsk.Data(), b) {
        if b < dbindex - 1 { assert DataLink(was, b); }
      }
    }
    ghost var was := dsk.Data();
    LinkSays(NULLID);
    dsk.Write(LinkBlock(NULLID), dbindex);
    forall b | first <= b < dbindex + 1 ensures DataLink(dsk.Data(), b) { if b < dbindex { assert DataLink(was, b); } }
  }

  /** struct lfdbfree: a link and zeros. */
  function LinkBlock(next: int): Sector {
    Encode32(next) + seq(BLKSIZ - 4, _ => 0)
  }

  lemma LinkSays(next: int)
    requires Int32(next)
    ensures Signed(LinkBlock(next)) == next
  {
    assert LinkBlock(next)[..4] == Encode32(next);
    SignedStart(LinkBlock(next));
    EncodeSigned(next);
  }
}
