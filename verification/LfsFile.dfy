/** The local file system itself: the device, the directory and the table of open files, and the operations on
    them, each against the text and the cursor of a file (device/lfs). */
module LfsFile {
  import opened LfsDisk
  import opened LfsState
  import opened LfsSteps
  import opened LfsSpec
  import opened LfsTruncate
  import opened LfsCount
  import opened LfsViews
  import opened Sequences

  class LocalFiles {
    const dsk: Disk
    /** lfltab */
    const cbs: array<Cblk>
    /** The directory as it stands in the first sector, and the copy in memory. */
    var diskDir: Dir
    var dir: Dir
    var dirdirty: bool
    ghost var lay: Layout

    /** lfsinit and lflinit on a disk that holds a file system laid out as `l`: no file is open. */
    constructor (dsk: Disk, diskDir: Dir, n: nat, ghost l: Layout)
      requires dsk.Valid() && Good(Fs(dsk.Index(), dsk.Data(), diskDir, []), l, -1)
      ensures Valid() && Saved() && this.dsk == dsk && cbs.Length == n && fresh(cbs) && lay == l && dir == diskDir
      ensures forall i :: 0 <= i < n ==> !cbs[i].used
    {
      this.dsk := dsk;
      this.cbs := new Cblk[n](_ =>
          Cblk(false, 0, 0, NULLID, IBlock(0, 0, seq(IBLEN, _ => 0)), 0, seq(BLKSIZ, _ => 0), BLKSIZ, false, false));
      this.diskDir := diskDir;
      this.dir := diskDir;
      this.dirdirty := false;
      this.lay := l;
      new;
      MoreUnused(Fs(dsk.Index(), dsk.Data(), diskDir, []), View(), l);
    }

    ghost function View(): Fs
      requires dsk.Valid()
      reads this, dsk.sectors, cbs
    {
      Fs(dsk.Index(), dsk.Data(), dir, cbs[..])
    }

    ghost predicate ValidBut(hole: int)
      reads this, dsk.sectors, cbs
    {
      dsk.Valid() && Good(View(), lay, hole)
    }

    ghost predicate Valid()
      reads this, dsk.sectors, cbs
    {
      ValidBut(-1) && (dirdirty || Lags(diskDir, dir))
    }

    /** Whatever the directory in memory says is on disk or will be written. */
    predicate Saved()
      reads this
    {
      dirdirty || diskDir == dir
    }

    predicate DirSame(dir0: Dir, diskDir0: Dir, dirty0: bool)
      reads this
    {
      dir == dir0 && diskDir == diskDir0 && dirdirty == dirty0
    }

    // ---------- Blocks ----------

    method Lfibclear(offset: int) returns (ib: IBlock)
      ensures ib == ClearIb(offset)
    {
      var dba: seq<int> := [];
      for i := 0 to IBLEN
        invariant |dba| == i && forall j :: 0 <= j < i ==> dba[j] == NULLID
      {
        dba := dba + [NULLID];
      }
      ib := IBlock(NULLID, offset, dba);
      assert dba == ClearIb(offset).dba;
    }

    method Lfiballoc() returns (panics: bool, ibnum: int)
      requires dsk.Valid() && (dir.ifree == NULLID || 0 <= dir.ifree < dsk.ni)
      modifies this
      ensures panics <==> old(dir.ifree) == NULLID
      ensures !panics ==> ibnum == old(dir.ifree) && dir == old(dir).(ifree := dsk.Index()[ibnum].next)
      ensures !panics ==> diskDir == dir && !dirdirty && lay == old(lay)
    {
      ibnum := dir.ifree;
      if ibnum == NULLID { return true, ibnum; }
      var iblock := dsk.Lfibget(ibnum);
      dir := dir.(ifree := iblock.next);
      diskDir := dir;
      dirdirty := false;
      panics := false;
    }

    method Lfdballoc() returns (panics: bool, dnum: int, dbuff: Sector)
      requires dsk.Valid() && (dir.dfree == NULLID || DataStart(dsk.ni) <= dir.dfree < dsk.sectors.Length)
      modifies this
      ensures panics <==> old(dir.dfree) == NULLID
      ensures !panics ==> dnum == old(dir.dfree) && dir == old(dir).(dfree := Signed(dsk.Data()[dnum]))
      ensures !panics ==> diskDir == dir && !dirdirty && lay == old(lay) && dbuff == Filled()
    {
      dnum, dbuff := dir.dfree, Filled();
      if dnum == NULLID { return true, dnum, dbuff; }
      dbuff := dsk.ReadBlock(dnum);
      dir := dir.(dfree := Signed(dbuff));
      diskDir := dir;
      dirdirty := false;
      panics, dbuff := false, Filled();
    }

    // ---------- Flushing ----------

    method Lfflush(i: int, ghost f: int) returns (r: int)
      requires ValidBut(f) && 0 <= i < cbs.Length && (cbs[i].used ==> cbs[i].file == f)
      modifies this, dsk.sectors, cbs
      ensures ValidBut(f) && dir == old(dir) && lay == old(lay)
      ensures !old(cbs[i]).used ==>
                r == SYSERR && View() == old(View()) && diskDir == old(diskDir) && dirdirty == old(dirdirty)
      ensures old(cbs[i]).used ==> r == OK && !dirdirty && diskDir == if old(dirdirty) then dir else old(diskDir)
      ensures old(cbs[i]).used ==> cbs[..] == old(cbs[..])[i := old(cbs[i]).(ibdirty := false, dbdirty := false)]
    {
      hide Good;
      if !cbs[i].used {
        return SYSERR;
      }
      if dirdirty {
        diskDir := dir;
        dirdirty := false;
      }
      OpenedHas(View(), lay, i, f);
      if cbs[i].dbdirty {
        ghost var fs := View();
        FlushData(fs, lay, i, f);
        dsk.Write(cbs[i].dblock, cbs[i].dnum);
        cbs[i] := cbs[i].(dbdirty := false);
        assert View().cbs == fs.cbs[i := fs.cbs[i].(dbdirty := false)];
      }
      if cbs[i].ibdirty {
        ghost var fs := View();
        OpenedHas(fs, lay, i, f);
        FlushIndex(fs, lay, i, f);
        dsk.Lfibput(cbs[i].inum, cbs[i].iblock);
        cbs[i] := cbs[i].(ibdirty := false);
        assert View().cbs == fs.cbs[i := fs.cbs[i].(ibdirty := false)];
      }
      r := OK;
    }

    // ---------- Positioning ----------

    /** lfsetup, device/lfs/lfsetup.c:45-72: have an index block in memory that does not lie behind the position. */
    method SetupFirstIndex(i: int, ghost f: int) returns (panics: bool)
      requires ValidBut(f) && Opened(View(), lay, i, f) && Tight(lay.files[f])
      requires !cbs[i].ibdirty && !cbs[i].dbdirty && cbs[i].bpos == BLKSIZ
      modifies this, cbs
      ensures panics <==> old(lay.files[f].chain == [] && lay.ifree == [])
      ensures !panics ==>
                ValidBut(f) && Opened(View(), lay, i, f) && Grown(old(lay), lay, f) && lay.dfree == old(lay.dfree)
      ensures !panics ==>
                cbs[..] == old(cbs[..])[i := cbs[i]]
                && cbs[i] == old(cbs[i]).(inum := cbs[i].inum, iblock := cbs[i].iblock, ibdirty := cbs[i].ibdirty)
      ensures !panics ==> cbs[i].inum != NULLID && cbs[i].iblock.offset <= cbs[i].pos
      ensures !panics ==> lay.files[f].blocks == old(lay.files[f].blocks)
      ensures !panics ==>
                |lay.files[f].chain| == if old(lay.files[f].chain) == [] then 1 else |old(lay.files[f].chain)|
      ensures !panics ==>
                old(lay.files[f].chain) != [] ==> !cbs[i].ibdirty && DirSame(old(dir), old(diskDir), old(dirdirty))
    {
      hide Good, FileOK, Holds, IbOf;
      ghost var fs := View();
      OpenedFile(fs, lay, i, f, f);
      TextFits(fs.ibs, fs.data, fs.dir.files[f], cbs[i], lay.files[f]);
      FirstOffset(lay.files[f]);
      panics := false;
      var ibnum := cbs[i].inum;
      if ibnum == NULLID {
        ibnum := dir.files[cbs[i].file].ilist;
        if ibnum == NULLID {
          NextNotNull(fs, lay, f);
          FreeTops(fs, lay, f);
          if lay.ifree != [] { FirstIndex(fs, lay, i, f); }
          panics, ibnum := Lfiballoc();
          if panics { return; }
          var ib := Lfibclear(0);
          dir := dir.(files := dir.files[cbs[i].file := dir.files[cbs[i].file].(ilist := ibnum)]);
          cbs[i] := cbs[i].(iblock := ib, ibdirty := true, inum := ibnum);
          lay := TakeIndex(lay, f);
          assert View().cbs == fs.cbs[i := cbs[i]];
        } else {
          LoadIndex(fs, lay, i, f, 0, false);
          var ib := dsk.Lfibget(ibnum);
          cbs[i] := cbs[i].(iblock := ib, inum := ibnum);
          lay := lay.(files := lay.files[f := lay.files[f].(ci := 0)]);
          assert View().cbs == fs.cbs[i := cbs[i]];
        }
      } else if cbs[i].pos < cbs[i].iblock.offset {
        ibnum := dir.files[cbs[i].file].ilist;
        LoadIndex(fs, lay, i, f, 0, false);
        var ib := dsk.Lfibget(ibnum);
        cbs[i] := cbs[i].(iblock := ib, inum := ibnum);
        lay := lay.(files := lay.files[f := lay.files[f].(ci := 0)]);
        assert View().cbs == fs.cbs[i := cbs[i]];
      }
    }

    /** A new index block at the end of a full chain, lfsetup.c:80-88. */
    method AppendIndex(i: int, ghost f: int) returns (panics: bool)
      requires ValidBut(f) && Opened(View(), lay, i, f)
      requires !cbs[i].ibdirty && !cbs[i].dbdirty && cbs[i].bpos == BLKSIZ && cbs[i].inum != NULLID
      requires lay.files[f].ci == |lay.files[f].chain| - 1 && |lay.files[f].blocks| == IBLEN * |lay.files[f].chain|
      requires |lay.files[f].chain| < CHAINMAX
      modifies this, cbs, dsk.sectors
      ensures panics <==> old(lay.ifree == [])
      ensures !panics ==>
                ValidBut(f) && Opened(View(), lay, i, f) && Grown(old(lay), lay, f) && lay.dfree == old(lay.dfree)
      ensures !panics ==>
                lay.files[f].blocks == old(lay.files[f].blocks) && |lay.files[f].chain| == |old(lay.files[f].chain)| + 1
      ensures !panics ==> cbs[..] == old(cbs[..])[i := cbs[i]]
      ensures !panics ==>
                cbs[i] == old(cbs[i]).(inum := cbs[i].inum, iblock := cbs[i].iblock, ibdirty := true, dnum := NULLID)
      ensures !panics ==> cbs[i].inum != NULLID && cbs[i].iblock.offset == old(cbs[i].iblock.offset) + IDATA
    {
      hide Good, FileOK, Holds, IbOf, GoodIb;
      ghost var fs := View();
      OpenedFile(fs, lay, i, f, f);
      FreeTops(fs, lay, f);
      if lay.ifree != [] { MoreIndex(fs, lay, i, f); }
      var ibnum;
      panics, ibnum := Lfiballoc();
      if panics { return; }
      cbs[i] := cbs[i].(iblock := cbs[i].iblock.(next := ibnum));
      dsk.Lfibput(cbs[i].inum, cbs[i].iblock);
      var newoffset := cbs[i].iblock.offset + IDATA;
      var ib := Lfibclear(newoffset);
      cbs[i] := cbs[i].(inum := ibnum, iblock := ib, ibdirty := true, dnum := NULLID);
      lay := TakeIndex(lay, f);
      assert View().cbs == fs.cbs[i := cbs[i]];
    }

    /** One step along the chain, lfsetup.c:79-93: to the next index block, or to a new one at the end. */
    method SetupNextIndex(i: int, ghost f: int) returns (panics: bool)
      requires ValidBut(f) && Opened(View(), lay, i, f)
      requires !cbs[i].ibdirty && !cbs[i].dbdirty && cbs[i].bpos == BLKSIZ && cbs[i].inum != NULLID
      requires lay.files[f].ci >= |lay.files[f].chain| - 1 ==>
                 |lay.files[f].blocks| == IBLEN * |lay.files[f].chain|
                     && |lay.files[f].chain| < CHAINMAX
      modifies this, cbs, dsk.sectors
      ensures panics <==> old(lay.files[f].ci == |lay.files[f].chain| - 1 && lay.ifree == [])
      ensures !panics ==>
                ValidBut(f) && Opened(View(), lay, i, f) && Grown(old(lay), lay, f) && lay.dfree == old(lay.dfree)
      ensures !panics ==> cbs[..] == old(cbs[..])[i := cbs[i]]
      ensures !panics ==>
                cbs[i] == old(cbs[i]).(inum := cbs[i].inum, iblock := cbs[i].iblock, ibdirty := cbs[i].ibdirty, dnum :=
                NULLID)
      ensures !panics ==> cbs[i].inum != NULLID && cbs[i].iblock.offset == old(cbs[i].iblock.offset) + IDATA
      ensures !panics ==> lay.files[f].blocks == old(lay.files[f].blocks)
      ensures !panics ==>
                |lay.files[f].chain| == |old(lay.files[f].chain)| + if old(lay.files[f].ci) ==
                |old(lay.files[f].chain)| - 1 then 1 else 0
      ensures !panics ==>
                old(lay.files[f].ci) < |old(lay.files[f].chain)| - 1 ==>
                !cbs[i].ibdirty && DirSame(old(dir), old(diskDir), old(dirdirty))
    {
      hide Good, FileOK, Holds, IbOf, GoodIb;
      ghost var fs := View();
      ghost var fl := lay.files[f];
      OpenedFile(fs, lay, i, f, f);
      NextNotNull(fs, lay, f);
      IbSays(fl, fl.ci);
      var ibnum := cbs[i].iblock.next;
      if ibnum == NULLID {
        panics := AppendIndex(i, f);
      } else {
        panics := false;
        LoadIndex(fs, lay, i, f, fl.ci + 1, true);
        IbSays(fl, fl.ci + 1);
        var ib := dsk.Lfibget(ibnum);
        cbs[i] := cbs[i].(iblock := ib, inum := ibnum, dnum := NULLID);
        lay := lay.(files := lay.files[f := fl.(ci := fl.ci + 1)]);
        assert View().cbs == fs.cbs[i := cbs[i]];
      }
    }

    /** A new data block at the end of the file, lfsetup.c:106-109. */
    method AppendBlock(i: int, ghost f: int) returns (panics: bool)
      requires ValidBut(f) && Opened(View(), lay, i, f)
      requires !cbs[i].dbdirty && cbs[i].bpos == BLKSIZ && cbs[i].inum != NULLID
      requires lay.files[f].ci == cbs[i].pos / IDATA && cbs[i].pos / BLKSIZ == |lay.files[f].blocks|
      modifies this, cbs
      ensures panics <==> old(lay.dfree == [])
      ensures !panics ==>
                ValidBut(f) && Opened(View(), lay, i, f) && Grown(old(lay), lay, f) && lay.ifree == old(lay.ifree)
      ensures !panics ==>
                lay.files[f].chain == old(lay.files[f].chain) && |lay.files[f].blocks| == |old(lay.files[f].blocks)| + 1
      ensures !panics ==> cbs[..] == old(cbs[..])[i := cbs[i]] && cbs[i].pos == old(cbs[i].pos)
      ensures !panics ==> cbs[i].dnum != NULLID && cbs[i].dnum == Nth(lay.files[f].blocks, cbs[i].pos / BLKSIZ)
    {
      hide Good, FileOK, Holds, IbOf, GoodIb;
      ghost var fs := View();
      OpenedFile(fs, lay, i, f, f);
      IbDba(lay.files[f], cbs[i].pos);
      var dindex := cbs[i].pos % IDATA / BLKSIZ;
      FreeTops(fs, lay, f);
      if lay.dfree != [] { NewBlock(fs, lay, i, f); NextBlock(fs, lay, f); }
      var dnum, dblock;
      panics, dnum, dblock := Lfdballoc();
      if panics { return; }
      cbs[i] := cbs[i].(dblock := dblock, iblock := cbs[i].iblock.(dba := cbs[i].iblock.dba[dindex := dnum]), ibdirty :=
          true, dnum := dnum);
      lay := TakeBlock(lay, f);
      assert View().cbs == fs.cbs[i := cbs[i]];
    }

    /** lfsetup.c:100-114: have the data block of the position in memory. */
    method SetupData(i: int, ghost f: int) returns (panics: bool)
      requires ValidBut(f) && Opened(View(), lay, i, f)
      requires !cbs[i].dbdirty && cbs[i].bpos == BLKSIZ && cbs[i].inum != NULLID
      requires lay.files[f].ci == cbs[i].pos / IDATA && 0 <= cbs[i].pos <= BLKSIZ * |lay.files[f].blocks| + BLKSIZ - 1
      modifies this, cbs
      ensures panics <==> old(cbs[i].pos / BLKSIZ >= |lay.files[f].blocks| && lay.dfree == [])
      ensures !panics ==>
                ValidBut(f) && Opened(View(), lay, i, f) && Grown(old(lay), lay, f) && lay.ifree == old(lay.ifree)
      ensures !panics ==> cbs[..] == old(cbs[..])[i := cbs[i]] && cbs[i].pos == old(cbs[i].pos)
      ensures !panics ==> cbs[i].dnum != NULLID && cbs[i].dnum == Nth(lay.files[f].blocks, cbs[i].pos / BLKSIZ)
      ensures !panics ==> lay.files[f].chain == old(lay.files[f].chain)
      ensures !panics ==>
                |lay.files[f].blocks| == |old(lay.files[f].blocks)|
                  + if cbs[i].pos / BLKSIZ == |old(lay.files[f].blocks)| then 1 else 0
      ensures !panics ==>
                cbs[i].pos / BLKSIZ < |old(lay.files[f].blocks)| ==> DirSame(old(dir), old(diskDir), old(dirdirty))
    {
      hide Good, FileOK, Holds, IbOf, GoodIb;
      ghost var fs := View();
      ghost var fl := lay.files[f];
      OpenedFile(fs, lay, i, f, f);
      NextNotNull(fs, lay, f);
      IbDba(fl, cbs[i].pos);
      var dindex := cbs[i].pos % IDATA / BLKSIZ;
      var dnum := cbs[i].iblock.dba[dindex];
      if dnum == NULLID {
        panics := AppendBlock(i, f);
        return;
      }
      panics := false;
      if dnum != cbs[i].dnum {
        LoadData(fs, lay, i, f, cbs[i].pos / BLKSIZ);
        var dblock := dsk.ReadBlock(dnum);
        cbs[i] := cbs[i].(dblock := dblock, dbdirty := false, dnum := dnum);
        lay := lay.(files := lay.files[f := fl.(di := cbs[i].pos / BLKSIZ)]);
        assert View().cbs == fs.cbs[i := cbs[i]];
      }
    }

    /** lfsetup.c:74-94: walk the chain to the index block of the position. */
    method SetupIndex(i: int, ghost f: int) returns (panics: bool)
      requires ValidBut(f) && Opened(View(), lay, i, f)
      requires !cbs[i].dbdirty && cbs[i].bpos == BLKSIZ && cbs[i].inum != NULLID
                && cbs[i].iblock.offset <= cbs[i].pos < 0x1_0000_0000
      requires cbs[i].ibdirty ==> cbs[i].pos < cbs[i].iblock.offset + IDATA
      requires cbs[i].pos >= IDATA * |lay.files[f].chain| ==>
                 |lay.files[f].blocks| == IBLEN * |lay.files[f].chain|
                     && cbs[i].pos / IDATA == |lay.files[f].chain|
      modifies this, cbs, dsk.sectors
      ensures panics <==> old(cbs[i].pos >= IDATA * |lay.files[f].chain| && lay.ifree == [])
      ensures !panics ==>
                ValidBut(f) && Opened(View(), lay, i, f) && Grown(old(lay), lay, f) && lay.dfree == old(lay.dfree)
      ensures !panics ==> cbs[..] == old(cbs[..])[i := cbs[i]] && cbs[i].pos == old(cbs[i].pos)
      ensures !panics ==>
                !cbs[i].dbdirty && cbs[i].bpos == BLKSIZ && cbs[i].inum != NULLID
                    && lay.files[f].ci == cbs[i].pos / IDATA
      ensures !panics ==> lay.files[f].blocks == old(lay.files[f].blocks)
      ensures !panics ==> |lay.files[f].chain| == Max(|old(lay.files[f].chain)|, cbs[i].pos / IDATA + 1)
      ensures !panics ==>
                cbs[i].pos < IDATA * |old(lay.files[f].chain)| ==> DirSame(old(dir), old(diskDir), old(dirdirty))
    {
      hide Good, FileOK, Holds, IbOf, Grown;
      ghost var l0 := lay;
      GrownSelf(lay, f);
      while cbs[i].pos - cbs[i].pos % IDATA > cbs[i].iblock.offset
        invariant ValidBut(f) && Opened(View(), lay, i, f) && Grown(l0, lay, f)
        invariant cbs[..] == old(cbs[..])[i := cbs[i]] && cbs[i].pos == old(cbs[i].pos)
        invariant !cbs[i].dbdirty && cbs[i].bpos == BLKSIZ && cbs[i].inum != NULLID
                    && cbs[i].iblock.offset <= cbs[i].pos
        invariant lay.files[f].blocks == l0.files[f].blocks && lay.dfree == l0.dfree
        invariant |lay.files[f].chain| == |l0.files[f].chain|
                  || (|lay.files[f].chain| == |l0.files[f].chain| + 1
                     && cbs[i].iblock.offset == IDATA * |l0.files[f].chain|
                      && cbs[i].pos / IDATA == |l0.files[f].chain|)
        invariant |lay.files[f].chain| == |l0.files[f].chain| ==>
                    (cbs[i].ibdirty ==> cbs[i].pos < cbs[i].iblock.offset + IDATA)
                        && DirSame(old(dir), old(diskDir), old(dirdirty))
        decreases cbs[i].pos - cbs[i].iblock.offset
      {
        Offset(View(), lay, i, f);
        GrownFree(l0, lay, f);
        ghost var l1 := lay;
        panics := SetupNextIndex(i, f);
        if panics { return; }
        GrownThen(l0, l1, lay, f);
      }
      Offset(View(), lay, i, f);
      GrownFree(l0, lay, f);
      panics := false;
    }

    /** lfsetup.c:36-38 and lftruncate.c:31-33 */
    method FlushDirty(i: int, ghost f: int)
      requires ValidBut(f) && Opened(View(), lay, i, f)
      modifies this, cbs, dsk.sectors
      ensures ValidBut(f) && Opened(View(), lay, i, f) && lay == old(lay)
      ensures cbs[..] == old(cbs[..])[i := old(cbs[i]).(ibdirty := false, dbdirty := false)] && dir == old(dir)
      ensures old(Saved()) ==> Saved()
      ensures old(dirdirty || Lags(diskDir, dir)) ==> dirdirty || Lags(diskDir, dir)
    {
      hide Good, Lags;
      LagsSelf(dir);
      if cbs[i].ibdirty || cbs[i].dbdirty {
        var _ := Lfflush(i, f);
      }
      assert cbs[..] == old(cbs[..])[i := old(cbs[i]).(ibdirty := false, dbdirty := false)];
    }

    /** lfsetup: have the index block and the data block of the position in memory. */
    method Lfsetup(i: int, ghost f: int) returns (panics: bool)
      requires ValidBut(f) && Opened(View(), lay, i, f) && Tight(lay.files[f]) && cbs[i].bpos == BLKSIZ
                && cbs[i].pos < 0x1_0000_0000
      modifies this, cbs, dsk.sectors
      ensures panics <==> old(NoBlocks(lay, f, cbs[i].pos))
      ensures !panics ==> ValidBut(f) && Opened(View(), lay, i, f) && Grown(old(lay), lay, f)
      ensures !panics ==>
                cbs[..] == old(cbs[..])[i := cbs[i]] && cbs[i].pos == old(cbs[i].pos) && cbs[i].bpos < BLKSIZ
      ensures !panics ==> |lay.files[f].chain| == Max(|old(lay.files[f].chain)|, cbs[i].pos / IDATA + 1)
      ensures !panics ==> |lay.files[f].blocks| == Max(|old(lay.files[f].blocks)|, cbs[i].pos / BLKSIZ + 1)
      ensures !panics ==> old(Saved()) && old(cbs[i].pos / BLKSIZ < |lay.files[f].blocks|) ==> Saved()
      ensures !panics ==>
                old((dirdirty || Lags(diskDir, dir)) && cbs[i].pos / BLKSIZ < |lay.files[f].blocks|) ==>
                dirdirty || Lags(diskDir, dir)
    {
      hide Good, FileOK, Holds, IbOf, Grown, Lags;
      ghost var l0 := lay;
      Placing(View(), lay, i, f);
      FlushDirty(i, f);
      panics := SetupFirstIndex(i, f);
      if panics { return; }
      GrownFree(l0, lay, f);
      ghost var l1 := lay;
      Offset(View(), lay, i, f);
      panics := SetupIndex(i, f);
      if panics { return; }
      GrownThen(l0, l1, lay, f);
      GrownFree(l0, lay, f);
      ghost var l2 := lay;
      panics := SetupData(i, f);
      if panics { return; }
      GrownThen(l0, l2, lay, f);
      SetupByte(i, f);
    }

    /** lfsetup.c:119 */
    method SetupByte(i: int, ghost f: int)
      requires ValidBut(f) && Opened(View(), lay, i, f)
      requires cbs[i].dnum != NULLID && cbs[i].dnum == Nth(lay.files[f].blocks, cbs[i].pos / BLKSIZ)
      modifies cbs
      ensures ValidBut(f) && Opened(View(), lay, i, f)
      ensures cbs[..] == old(cbs[..])[i := old(cbs[i]).(bpos := old(cbs[i]).pos % BLKSIZ)] && cbs[i].bpos < BLKSIZ
    {
      hide Good;
      ghost var fs := View();
      PointByte(fs, lay, i, f);
      cbs[i] := cbs[i].(bpos := cbs[i].pos % BLKSIZ);
      assert View().cbs == fs.cbs[i := cbs[i]];
    }

    // ---------- Truncation ----------

    /** What follows the link in the buffer is whatever the stack held. */
    method Lfdbfree(dnum: int)
      requires dsk.Valid() && DataStart(dsk.ni) <= dnum < dsk.sectors.Length && Int32(dir.dfree)
      modifies this, dsk.sectors
      ensures dsk.Valid() && dsk.Index() == old(dsk.Index())
      ensures dsk.Data() == old(dsk.Data())[dnum := dsk.Data()[dnum]] && Signed(dsk.Data()[dnum]) == old(dir.dfree)
      ensures dir == old(dir).(dfree := dnum) && diskDir == dir && dirdirty == old(dirdirty) && lay == old(lay)
    {
      ghost var some: seq<byte> := seq(BLKSIZ - 4, _ => 0);
      assert |some| == BLKSIZ - 4;
      var unused: seq<byte> :| |unused| == BLKSIZ - 4;
      var buf := Encode32(dir.dfree) + unused;
      assert Signed(buf) == dir.dfree by {
        EncodeSigned(dir.dfree);
        assert buf[..4] == Encode32(dir.dfree);
        SignedStart(buf);
      }
      hide Signed, Encode32;
      dir := dir.(dfree := dnum);
      dsk.Write(buf, dnum);
      diskDir := dir;
    }

    /** lftruncate.c:62-74: free the data blocks of index block `k` of the file, which `ib` holds. */
    method FreeBlocks(ib: IBlock, ghost fs: Fs, ghost f: int, ghost k: int) returns (ib': IBlock)
      requires Good(fs, lay, f) && 0 <= f < |lay.files| && 0 <= k && ib == IbOf(lay.files[f], k) && dsk.Valid()
      requires |fs.ibs| == dsk.ni
                && Freed(fs.data, dsk.Data(), lay.dplace, lay.files[f], f, lay.dfree,
                Min(IBLEN * k, |lay.files[f].blocks|))
      requires dir.dfree == Under(lay.dfree + lay.files[f].blocks, |lay.dfree| + Min(IBLEN * k, |lay.files[f].blocks|))
      modifies this, dsk.sectors
      ensures ib' == IBlock(ib.next, ib.offset, seq(IBLEN, _ => NULLID))
      ensures dsk.Valid() && dsk.Index() == old(dsk.Index()) && lay == old(lay)
      ensures Freed(fs.data, dsk.Data(), lay.dplace, lay.files[f], f, lay.dfree,
                Min(IBLEN * (k + 1), |lay.files[f].blocks|))
      ensures dir == old(dir).(dfree :=
                Under(lay.dfree + lay.files[f].blocks, |lay.dfree| + Min(IBLEN * (k + 1), |lay.files[f].blocks|)))
      ensures dirdirty == old(dirdirty)
    {
      hide Good, Freed, IbOf, Signed;
      ib' := ib;
      ghost var fl := lay.files[f];
      IbLength(fl, k);
      for i := 0 to IBLEN
        invariant dsk.Valid() && dsk.Index() == old(dsk.Index()) && lay == old(lay) && dirdirty == old(dirdirty)
        invariant |ib'.dba| == IBLEN && ib'.next == ib.next && ib'.offset == ib.offset
        invariant forall j :: 0 <= j < IBLEN ==> ib'.dba[j] == if j < i then NULLID else ib.dba[j]
        invariant Freed(fs.data, dsk.Data(), lay.dplace, fl, f, lay.dfree, Min(IBLEN * k + i, |fl.blocks|))
        invariant dir == old(dir).(dfree := Under(lay.dfree + fl.blocks, |lay.dfree| + Min(IBLEN * k + i, |fl.blocks|)))
      {
        var nextdb := ib'.dba[i];
        SpareNth(fl, k, i);
        ghost var m := IBLEN * k + i;
        if m < |fl.blocks| { BlockInArea(fs, lay, f, m); }
        if nextdb != NULLID {
          ghost var data := dsk.Data();
          FreedLengths(fs.data, data, lay.dplace, fl, f, lay.dfree, m);
          Lfdbfree(nextdb);
          FreeMore(fs, lay, data, dsk.Data(), f, m);
        }
        ib' := ib'.(dba := ib'.dba[i := NULLID]);
      }
      assert ib'.dba == seq(IBLEN, _ => NULLID);
    }

    /** lftruncate.c:54-90: the walk along the chain of file `f`, from `nextib` to the free list. */
    method FreeChain(nextib: int, ifree: int, ghost fs: Fs, ghost i: int, ghost f: int)
      requires dsk.Valid() && Good(fs, lay, f) && Opened(fs, lay, i, f) && !fs.cbs[i].ibdirty
      requires fs.ibs == dsk.Index() && fs.data == dsk.Data() && fs.dir.ifree == dir.ifree && fs.dir.dfree == dir.dfree
      requires ifree == dir.ifree && lay.files[f].chain != [] && nextib == lay.files[f].chain[0]
      modifies this, dsk.sectors
      ensures dsk.Valid() && lay == old(lay) && dirdirty == old(dirdirty)
      ensures Cleared(old(dsk.Index()), dsk.Index(), lay.iplace, lay.files[f], f, ifree, |lay.files[f].chain|)
      ensures Freed(old(dsk.Data()), dsk.Data(), lay.dplace, lay.files[f], f, lay.dfree, |lay.files[f].blocks|)
      ensures dir == old(dir).(dfree := Under(lay.dfree + lay.files[f].blocks, |lay.dfree| + |lay.files[f].blocks|))
    {
      hide Good, Freed, Cleared, IbOf, GoodIb, Holds, FileOK;
      ghost var fl := lay.files[f];
      ghost var k := 0;
      var next := nextib;
      NothingCleared(fs, lay, f, ifree);
      StartFree(fs, lay, f);
      OpenedFile(fs, lay, i, f, f);
      TextFits(fs.ibs, fs.data, fs.dir.files[f], fs.cbs[i], fl);
      while next != ifree
        invariant 0 <= k <= |fl.chain| && dsk.Valid() && lay == old(lay) && dirdirty == old(dirdirty)
        invariant next == if k < |fl.chain| then fl.chain[k] else ifree
        invariant Cleared(fs.ibs, dsk.Index(), lay.iplace, fl, f, ifree, k)
        invariant Freed(fs.data, dsk.Data(), lay.dplace, fl, f, lay.dfree, Min(IBLEN * k, |fl.blocks|))
        invariant dir == old(dir).(dfree := Under(lay.dfree + fl.blocks, |lay.dfree| + Min(IBLEN * k, |fl.blocks|)))
        decreases |fl.chain| - k
      {
        ClearMore(fs, lay, dsk.Index(), f, ifree, k);
        ChainBlock(fs, lay, i, f, k);
        IbSays(fl, k);
        var iblock := dsk.Lfibget(next);
        iblock := FreeBlocks(iblock, fs, f, k);
        iblock := iblock.(offset := 0);
        NextNotNull(fs, lay, f);
        if iblock.next == NULLID {
          iblock := iblock.(next := ifree);
        }
        assert iblock == ClearedIb(fl, k, ifree);
        ClearedGood(fs, lay, f, k);
        dsk.Lfibput(next, iblock);
        next := iblock.next;
        k := k + 1;
        if k < |fl.chain| { ChainNotTop(fs, lay, f, k); }
      }
      if k < |fl.chain| { ChainNotTop(fs, lay, f, k); }
    }

    /** The file is empty and its cursor at 0; its blocks, and no others, are added to the free ones; no other file,
        handle or directory entry has changed. */
    method Lftruncate(i: int) returns (r: int)
      requires Valid() && 0 <= i < cbs.Length && cbs[i].used
      modifies this, cbs, dsk.sectors
      ensures Valid() && HandleOK(old(Files()), i) && Reply(Files(), r) == Truncate(old(Files()), i)
      ensures 0 <= old(cbs[i]).file < |old(lay).files| == |old(dir).files|
      ensures r == OK && Files() == Store(old(Files()).texts[old(cbs[i]).file := []],
                                          old(Files()).handles[i := Open(old(cbs[i]).file, 0)])
      ensures dir.files == old(dir).files[old(cbs[i]).file := Entry(0, NULLID)]
      ensures lay.dfree == old(lay).dfree + old(lay).files[old(cbs[i]).file].blocks
      ensures lay.ifree == old(lay).ifree + Reversed(old(lay).files[old(cbs[i]).file].chain)
      ensures old(Saved()) ==> Saved()
    {
      hide Good, Freed, Cleared, IbOf, Holds, FileOK, Tight, GivePlace;
      HandlesGood(View(), lay, i);
      ghost var f := cbs[i].file;
      ghost var l0 := lay;
      OpenedHas(View(), lay, i, -1);
      OpenedFile(View(), lay, i, f, -1);
      TextFits(View().ibs, View().data, View().dir.files[f], cbs[i], lay.files[f]);
      EmptyHas(View(), lay, f);
      if dir.files[cbs[i].file].size == 0 {
        StoreWith(cbs[..], lay.files, cbs[..], lay.files, i);
        assert Files().texts == old(Files()).texts[f := []];
        return OK;
      }
      OpenHole(View(), lay, f);
      FlushDirty(i, f);
      ResetStep(View(), lay, i, f);
      cbs[i] := cbs[i].(pos := 0, inum := NULLID, dnum := NULLID, bpos := BLKSIZ);
      assert cbs[..] == old(cbs[..])[i := cbs[i]];
      ghost var fs := View();
      var ifree := dir.ifree;
      var firstib := dir.files[cbs[i].file].ilist;
      dir := dir.(files := dir.files[cbs[i].file := Entry(0, NULLID)]);
      dirdirty := true;
      FreeChain(firstib, ifree, fs, i, f);
      dir := dir.(ifree := firstib);
      dirdirty := true;
      TruncGood(fs, lay, View(), i, f);
      lay := Emptied(lay, f);
      StoreWith(old(cbs[..]), l0.files, cbs[..], lay.files, i);
      r := OK;
    }

    /** lflcontrol with LF_CTL_TRUNC; other functions fail. */
    method LflcontrolTrunc(i: int) returns (r: int)
      requires Valid() && 0 <= i < cbs.Length
      modifies this, cbs, dsk.sectors
      ensures Valid() && HandleOK(old(Files()), i) && Reply(Files(), r) == Truncate(old(Files()), i)
      ensures old(Saved()) ==> Saved()
    {
      hide Good;
      HandlesGood(View(), lay, i);
      if !cbs[i].used {
        return SYSERR;
      }
      r := Lftruncate(i);
    }

    // ---------- What a user calls ----------

    /** The files and the open handles. */
    ghost function Files(): Store
      requires dsk.Valid()
      reads this, dsk.sectors, cbs
    {
      StoreOf(cbs[..], lay.files)
    }

    /** The blocks of the disk suffice for these files. */
    ghost predicate Enough(texts: seq<seq<byte>>) {
      TextsFit(texts, dsk.ni, dsk.sectors.Length - DataStart(dsk.ni))
    }

    /** They do for the files there are. */
    lemma FilesFit()
      requires Valid()
      ensures Enough(Files().texts)
    {
      hide Good, DataTotal, IndexTotal;
      GoodSized(View(), lay);
      BlocksConserved(View(), lay, Files().texts);
    }

    /** The size of a file is a number of 32 bits. */
    ghost predicate BelowLimit(i: int)
      requires 0 <= i < cbs.Length
      reads this, cbs
    {
      cbs[i].used && 0 <= cbs[i].file < |lay.files| && cbs[i].pos == |lay.files[cbs[i].file].text| ==>
        cbs[i].pos < 0xFFFF_FFFF
    }

    /** lflputc.c:48-60: the byte goes to the place lfbyte points to. */
    method PutByte(i: int, ghost f: int, ch: byte)
      requires ValidBut(f) && Opened(View(), lay, i, f) && cbs[i].bpos < BLKSIZ && cbs[i].pos < 0xFFFF_FFFF
      modifies this, cbs
      ensures 0 <= old(cbs[i]).pos <= |old(lay).files[f].text|
      ensures ValidBut(f) && Opened(View(), lay, i, f)
      ensures cbs[..] == old(cbs[..])[i := cbs[i]] && cbs[i].pos == old(cbs[i].pos) + 1
      ensures lay == old(lay).(files := lay.files) && |lay.files| == |old(lay).files|
                && lay.files == old(lay).files[f := lay.files[f]]
      ensures lay.files[f] == old(lay).files[f].(text := PutText(old(lay).files[f].text, old(cbs[i]).pos, ch))
      ensures old(Saved()) || old(cbs[i].pos == |lay.files[f].text|) ==> Saved()
      ensures if old(cbs[i].pos == |lay.files[f].text|) then dirdirty
                else DirSame(old(dir), old(diskDir), old(dirdirty))
    {
      hide Good, FileOK, Holds, IbOf;
      ghost var fs := View();
      OpenedFile(fs, lay, i, f, f);
      TextFits(fs.ibs, fs.data, fs.dir.files[f], cbs[i], lay.files[f]);
      PutStep(fs, lay, i, f, ch);
      if cbs[i].pos >= dir.files[cbs[i].file].size {
        dir := dir.(files := dir.files[cbs[i].file :=
            dir.files[cbs[i].file].(size := dir.files[cbs[i].file].size + 1)]);
        dirdirty := true;
      }
      lay := lay.(files := lay.files[f := lay.files[f].(text := PutText(lay.files[f].text, cbs[i].pos, ch))]);
      assert dir.files[f].size == |lay.files[f].text|;
      assert dir == fs.dir.(files := fs.dir.files[f := fs.dir.files[f].(size := |lay.files[f].text|)]);
      cbs[i] := cbs[i].(dblock := cbs[i].dblock[cbs[i].bpos := ch], bpos := cbs[i].bpos + 1, pos :=
          cbs[i].pos + 1, dbdirty := true);
      assert View().cbs == fs.cbs[i := PutCb(fs.cbs[i], ch)];
    }

    /** The system panics exactly if the blocks of the disk do not suffice for what the files would be. */
    method Lflputc(i: int, ch: byte) returns (panics: bool, r: int)
      requires Valid() && 0 <= i < cbs.Length && BelowLimit(i)
      modifies this, cbs, dsk.sectors
      ensures HandleOK(old(Files()), i) && (panics <==> !Enough(Put(old(Files()), i, ch).store.texts))
      ensures !panics ==> Valid() && Reply(Files(), r) == Put(old(Files()), i, ch)
      ensures !panics && old(Saved()) ==> Saved()
      ensures !panics && old(cbs[i].used && cbs[i].pos == |lay.files[cbs[i].file].text|) ==> Saved()
    {
      hide Good, FileOK, Holds, IbOf, Tight, Lags, TextsFit, NoBlocks;
      GoodSized(View(), lay);
      PutFitsIff(View(), lay, i, ch);
      if !cbs[i].used {
        return false, SYSERR;
      }
      ghost var f := cbs[i].file;
      ghost var l0 := lay;
      OpenedHas(View(), lay, i, -1);
      OpenedFile(View(), lay, i, f, -1);
      TextFits(View().ibs, View().data, View().dir.files[f], cbs[i], lay.files[f]);
      OpenHole(View(), lay, f);
      Placing(View(), lay, i, f);
      if cbs[i].pos > dir.files[cbs[i].file].size {
        return false, SYSERR;
      }
      panics, r := false, OK;
      if cbs[i].bpos >= BLKSIZ {
        panics := Lfsetup(i, f);
        if panics { return; }
      } else {
        PointedAt(View(), lay, i, f);
      }
      ghost var l1 := lay;
      PutByte(i, f, ch);
      TightPut(l0.files[f], lay.files[f], cbs[i].pos - 1, ch);
      CloseHole(View(), lay, f);
      StoreWith(old(cbs[..]), l0.files, cbs[..], lay.files, i);
    }

    method Lflgetc(i: int) returns (r: int)
      requires Valid() && 0 <= i < cbs.Length
      modifies this, cbs, dsk.sectors
      ensures Valid() && HandleOK(old(Files()), i) && Reply(Files(), r) == Get(old(Files()), i)
      ensures old(Saved()) ==> Saved()
    {
      hide Good, FileOK, Holds, IbOf, Tight, Lags;
      HandlesGood(View(), lay, i);
      if !cbs[i].used {
        return SYSERR;
      }
      ghost var f := cbs[i].file;
      ghost var l0 := lay;
      OpenedHas(View(), lay, i, -1);
      OpenedFile(View(), lay, i, f, -1);
      TextFits(View().ibs, View().data, View().dir.files[f], cbs[i], lay.files[f]);
      if cbs[i].pos >= dir.files[cbs[i].file].size {
        return EOF;
      }
      OpenHole(View(), lay, f);
      InsideHasBlock(lay.files[f], cbs[i].pos);
      if cbs[i].bpos >= BLKSIZ {
        var panics := Lfsetup(i, f);
        assert !panics;
      }
      ghost var fs := View();
      SameTight(l0.files[f], lay.files[f]);
      GetStep(fs, lay, i, f);
      r := cbs[i].dblock[cbs[i].bpos];
      cbs[i] := cbs[i].(bpos := cbs[i].bpos + 1, pos := cbs[i].pos + 1);
      assert View().cbs == fs.cbs[i := cbs[i]];
      CloseHole(View(), lay, f);
      StoreWith(old(cbs[..]), l0.files, cbs[..], lay.files, i);
    }

    method Lflseek(i: int, offset: nat) returns (r: int)
      requires Valid() && 0 <= i < cbs.Length
      modifies cbs
      ensures Valid() && HandleOK(old(Files()), i) && Reply(Files(), r) == Seek(old(Files()), i, offset)
      ensures old(Saved()) ==> Saved()
    {
      hide Good, FileOK, Holds, IbOf, Tight;
      HandlesGood(View(), lay, i);
      if !cbs[i].used {
        return SYSERR;
      }
      ghost var f := cbs[i].file;
      ghost var fs := View();
      OpenedHas(fs, lay, i, -1);
      OpenedFile(fs, lay, i, f, -1);
      TextFits(fs.ibs, fs.data, fs.dir.files[f], cbs[i], lay.files[f]);
      if offset > dir.files[cbs[i].file].size {
        return SYSERR;
      }
      OpenHole(fs, lay, f);
      SeekStep(fs, lay, i, f, offset);
      cbs[i] := cbs[i].(pos := offset, bpos := BLKSIZ);
      assert View().cbs == fs.cbs[i := cbs[i]];
      CloseHole(View(), lay, f);
      StoreWith(old(cbs[..]), lay.files, cbs[..], lay.files, i);
      r := OK;
    }

    /** What the disk says about file `f`, starting from the directory in its first sector, is what it holds. */
    ghost predicate OnDisk(f: int)
      requires dsk.Valid()
      reads this, dsk.sectors, cbs
    {
      && 0 <= f < |diskDir.files| && f < |lay.files| && diskDir.files[f].size >= 0
      && ReadFile(dsk.Index(), dsk.Data(), diskDir.files[f]) == Files().texts[f]
    }

    /** While the directory in memory is not marked as changed, a closed file can be read back from the disk if
        and only if the directory there has an entry for it, and only an empty file can lack one. */
    lemma ClosedIsOnDiskIff(f: int)
      requires Valid() && !dirdirty && 0 <= f < |lay.files| && lay.files[f].cb == -1
      ensures OnDisk(f) <==> f < |diskDir.files|
      ensures OnDisk(f) || Files().texts[f] == []
    {
      hide Good;
      ClosedOnDisk(View(), lay, f);
    }

    method Lflclose(i: int) returns (r: int)
      requires Valid() && 0 <= i < cbs.Length
      modifies this, cbs, dsk.sectors
      ensures Valid() && Reply(Files(), r) == Close(old(Files()), i)
      ensures old(cbs[i]).used ==>
                dir == old(dir) && !dirdirty && diskDir == if old(dirdirty) then dir else old(diskDir)
      ensures old(cbs[i]).used ==>
                (OnDisk(old(cbs[i]).file) <==> old(dirdirty || cbs[i].file < |diskDir.files|))
      ensures old(cbs[i]).used && !OnDisk(old(cbs[i]).file) ==>
                0 <= old(cbs[i]).file < |Files().texts| && Files().texts[old(cbs[i]).file] == []
      ensures old(Saved()) ==> Saved()
    {
      hide Good, FileOK, Holds, IbOf, Tight, Lags, OnDisk;
      if !cbs[i].used {
        return SYSERR;
      }
      ghost var f := cbs[i].file;
      OpenedHas(View(), lay, i, -1);
      OpenHole(View(), lay, f);
      if dirdirty || cbs[i].dbdirty || cbs[i].ibdirty {
        var _ := Lfflush(i, f);
      }
      ghost var fs := View();
      CloseStep(fs, lay, i, f);
      cbs[i] := cbs[i].(used := false);
      lay := lay.(files := lay.files[f := lay.files[f].(cb := -1)]);
      assert View().cbs == fs.cbs[i := cbs[i]];
      SameTight(old(lay).files[f], lay.files[f]);
      CloseHole(View(), lay, f);
      StoreClosed(old(cbs[..]), old(lay).files, cbs[..], lay.files, i);
      LagsSelf(dir);
      ClosedIsOnDiskIff(f);
      r := OK;
    }

    /** lfsopen.c:153-184 for file `f` of the directory, which is not open, through the free control block `i`. */
    method Lfsopen(i: int, f: int)
      requires Valid() && 0 <= i < cbs.Length && !cbs[i].used && 0 <= f < |dir.files|
      requires forall j :: 0 <= j < cbs.Length && cbs[j].used ==> cbs[j].file != f
      modifies this, cbs
      ensures Valid() && Files() == old(Files()).(handles := old(Files()).handles[i := Open(f, 0)])
      ensures dir == old(dir) && diskDir == old(diskDir) && dirdirty == old(dirdirty)
    {
      hide Good, FileOK, Holds, IbOf, Tight;
      ghost var fs := View();
      GoodSized(fs, lay);
      NotOpen(fs, lay, f);
      cbs[i] := cbs[i].(used := true, file := f, pos := 0, inum := NULLID, dnum := NULLID, bpos := BLKSIZ, ibdirty :=
          false, dbdirty := false);
      lay := lay.(files := lay.files[f := lay.files[f].(cb := i)]);
      assert View().cbs == fs.cbs[i := cbs[i]];
      OpenStep(fs, old(lay), i, f, cbs[i]);
      StoreOpened(old(cbs[..]), old(lay).files, cbs[..], lay.files, i, f);
    }

    /** lfsopen.c:135-144: a new entry for an empty file.  This does not mark the directory as changed. */
    method NewEntry()
      requires Valid()
      modifies this
      ensures Valid() && Files() == old(Files()).(texts := old(Files()).texts + [[]])
      ensures dir.files == old(dir.files) + [Entry(0, NULLID)] && diskDir == old(diskDir) && dirdirty == old(dirdirty)
    {
      hide Good;
      ghost var fs := View();
      GoodSized(fs, lay);
      EntryStep(fs, lay);
      dir := dir.(files := dir.files + [Entry(0, NULLID)]);
      lay := lay.(files := lay.files + [File([], [], [], -1, 0, 0)]);
      StoreLonger(cbs[..], old(lay).files, lay.files);
    }

    /** A file that is created and closed without a write can be read back from the disk if and only if something
        else had marked the directory as changed. */
    method CreateAndClose(i: int) returns (r: int)
      requires Valid() && 0 <= i < cbs.Length && !cbs[i].used
      modifies this, cbs, dsk.sectors
      ensures Valid() && Files() == old(Files()).(texts := old(Files()).texts + [[]]) && r == OK
      ensures OnDisk(|old(Files()).texts|) <==> old(dirdirty)
    {
      hide Good, OnDisk;
      GoodSized(View(), lay);
      ghost var st := Files();
      forall j | 0 <= j < cbs.Length && cbs[j].used ensures cbs[j].file < |dir.files| {
        HandlesGood(View(), lay, j);
        assert HandleOK(Files(), j);
      }
      NewEntry();
      GoodSized(View(), lay);
      Lfsopen(i, |dir.files| - 1);
      r := Lflclose(i);
      assert Files().handles == st.handles;
    }

    // ---------- Many bytes ----------

    /** Writing panics exactly if the blocks of the disk do not suffice for what the files would be. */
    method Lflwrite(i: int, buff: seq<byte>, count: int) returns (panics: bool, r: int)
      requires Valid() && 0 <= i < cbs.Length && count <= |buff| && HandleOK(Files(), i)
      requires cbs[i].used && count >= 0 ==> Small(Write(Files(), i, buff[..count]).texts)
      modifies this, cbs, dsk.sectors
      ensures panics <==> count >= 0 && old(cbs[i]).used && !Enough(Write(old(Files()), i, buff[..count]).texts)
      ensures !panics ==> Valid() && (old(Saved()) ==> Saved())
      ensures !panics && count < 0 ==> r == SYSERR && Files() == old(Files())
      ensures !panics && count >= 0 && !old(cbs[i]).used ==>
                r == (if count > 0 then SYSERR else 0) && Files() == old(Files())
      ensures !panics && count >= 0 && old(cbs[i]).used ==>
                r == count && Files() == Write(old(Files()), i, buff[..count])
    {
      hide Good, Put, Write, TextsFit, Small;
      panics, r := false, count;
      if count < 0 {
        return false, SYSERR;
      }
      ghost var st := Files();
      if st.handles[i].Open? { WriteNothing(st, i, buff[..0]); }
      for k := 0 to count
        invariant Valid() && (old(Saved()) ==> Saved()) && !panics
        invariant if st.handles[i].Open? then Files() == Write(st, i, buff[..k]) else Files() == st && k == 0
      {
        FilesFit();
        WriteLimit(this, st, i, buff, k, count);
        PutOne(st, i, buff, k);
        var ok;
        panics, ok := Lflputc(i, buff[k]);
        if panics {
          if Enough(Write(st, i, buff[..count]).texts) {
            WriteGrows(st, i, buff, k + 1, count, dsk.ni, dsk.sectors.Length - DataStart(dsk.ni));
          }
          return;
        }
        if ok == SYSERR {
          return false, SYSERR;
        }
      }
      FilesFit();
    }

    /** lflread.c:25-36: one byte into the buffer, unless there is none. */
    method ReadOne(i: int, buff: array<byte>, k: int, ghost st: Store, ghost n: nat, ghost b: seq<byte>,
                   ghost was: seq<byte>)
      returns (nxt: int)
      requires Valid() && 0 <= i < cbs.Length && 0 <= i < |st.handles| && HandleOK(st, i)
                && 0 <= k < n <= buff.Length == |was|
      requires if st.handles[i].Open? then b == Available(st, i, n) && k <= |b|
                && Files() == Skip(st, i, k) else Files() == st && b == [] && k == 0
      requires BufferIs(buff[..], b, was, k)
      modifies this, cbs, dsk.sectors, buff
      ensures Valid() && (old(Saved()) ==> Saved())
      ensures !st.handles[i].Open? ==> nxt == SYSERR && Files() == st && BufferIs(buff[..], b, was, 0)
      ensures st.handles[i].Open? && k == |b| ==>
                nxt == EOF && Files() == Skip(st, i, k) && BufferIs(buff[..], b, was, k)
      ensures st.handles[i].Open? && k < |b| ==>
                nxt >= 0 && Files() == Skip(st, i, k + 1) && BufferIs(buff[..], b, was, k + 1)
    {
      hide Good, Get, Available, Skip;
      nxt := Lflgetc(i);
      GetOne(st, i, k, n);
      if nxt != SYSERR && nxt != EOF {
        BufferStep(b, was, k);
        buff[k] := nxt % 256;
      }
    }

    method Lflread(i: int, buff: array<byte>, count: int) returns (r: int)
      requires Valid() && 0 <= i < cbs.Length && count <= buff.Length && HandleOK(Files(), i)
      modifies this, cbs, dsk.sectors, buff
      ensures Valid() && (old(Saved()) ==> Saved())
      ensures count < 0 ==> r == SYSERR && Files() == old(Files()) && buff[..] == old(buff[..])
      ensures count >= 0 && !old(cbs[i]).used ==>
                r == (if count > 0 then SYSERR else 0) && Files() == old(Files()) && buff[..] == old(buff[..])
      ensures count >= 0 && old(cbs[i]).used ==>
                var b := Available(old(Files()), i, count);
                && r == (if b == [] && count > 0 then EOF else |b|)
                && Files() == Skip(old(Files()), i, |b|)
                && buff[..] == b + old(buff[..])[|b|..]
    {
      hide Good, Available, Skip, BufferIs;
      if count < 0 {
        return SYSERR;
      }
      ghost var st := Files();
      ghost var was := buff[..];
      ghost var b := if st.handles[i].Open? then Available(st, i, count) else [];
      if st.handles[i].Open? { SkipNothing(st, i); }
      BufferEnds(buff[..], b, was);
      for k := 0 to count
        invariant Valid() && (old(Saved()) ==> Saved())
        invariant k <= |b| && BufferIs(buff[..], b, was, k)
        invariant if st.handles[i].Open? then Files() == Skip(st, i, k) else Files() == st && k == 0
      {
        var nxt := ReadOne(i, buff, k, st, count, b, was);
        BufferEnds(buff[..], b, was);
        if nxt == SYSERR {
          return SYSERR;
        } else if nxt == EOF {
          if k == 0 {
            return EOF;
          } else {
            return k;
          }
        }
      }
      BufferEnds(buff[..], b, was);
      r := count;
    }

    // ---------- Runs ----------

    /** Any run of operations.  It panics exactly if at some point the blocks of the disk do not suffice. */
    method DoAll(ops: seq<Op>) returns (panics: bool, replies: seq<int>)
      requires Valid() && RunSmall(Files(), ops)
      modifies this, cbs, dsk.sectors
      ensures panics <==> !RunFits(old(Files()), ops, dsk.ni, dsk.sectors.Length - DataStart(dsk.ni))
      ensures !panics ==> Valid() && Files() == RunOps(old(Files()), ops) && replies == RepliesOf(old(Files()), ops)
      ensures !panics && old(Saved()) ==> Saved()
    {
      hide Good, Do, TextsFit, Small;
      panics, replies := false, [];
      ghost var st := Files();
      ghost var nd := dsk.sectors.Length - DataStart(dsk.ni);
      var n := 0;
      while n < |ops| && ops[n].i < cbs.Length
        invariant 0 <= n <= |ops| && Valid() && (old(Saved()) ==> Saved()) && !panics
        invariant RunOps(st, ops) == RunOps(Files(), ops[n..])
                    && RepliesOf(st, ops) == replies + RepliesOf(Files(), ops[n..])
        invariant RunFits(st, ops, dsk.ni, nd) <==> RunFits(Files(), ops[n..], dsk.ni, nd)
        invariant RunSmall(Files(), ops[n..])
      {
        ghost var rest := ops[n..];
        HandlesGood(View(), lay, ops[n].i);
        var r;
        panics, r := DoOne(ops[n]);
        if panics { return; }
        assert rest[1..] == ops[n + 1..];
        replies := replies + [r];
        n := n + 1;
      }
    }

    method DoOne(op: Op) returns (panics: bool, r: int)
      requires Valid() && op.i < cbs.Length && HandleOK(Files(), op.i) && Small(Do(Files(), op).store.texts)
      modifies this, cbs, dsk.sectors
      ensures HandleOK(old(Files()), op.i) && (panics <==> !Enough(Do(old(Files()), op).store.texts))
      ensures !panics ==> Valid() && Reply(Files(), r) == Do(old(Files()), op)
      ensures !panics && old(Saved()) ==> Saved()
    {
      hide Good, Get, Seek, Truncate, Close, TextsFit;
      panics := false;
      match op
      case OpPut(i, ch) => PutLimit(this, i, ch); panics, r := Lflputc(i, ch);
      case OpGet(i) => r := Lflgetc(i); FilesFit();
      case OpSeek(i, offset) => r := Lflseek(i, offset); FilesFit();
      case OpTruncate(i) => r := LflcontrolTrunc(i); FilesFit();
      case OpClose(i) => r := Lflclose(i); FilesFit();
    }
  }

  lemma PutLimit(lf: LocalFiles, i: int, ch: byte)
    requires lf.Valid() && 0 <= i < lf.cbs.Length && HandleOK(lf.Files(), i)
    requires Small(Put(lf.Files(), i, ch).store.texts)
    ensures lf.BelowLimit(i)
  {
    hide Good;
    var st := lf.Files();
    if st.handles[i].Open? {
      var f, pos := st.handles[i].file, st.handles[i].pos;
      assert Put(st, i, ch).store.texts[f] == PutText(st.texts[f], pos, ch);
    }
  }

  /** In the middle of a write, the size is below that at the end. */
  lemma WriteLimit(lf: LocalFiles, st: Store, i: int, b: seq<byte>, k: int, n: int)
    requires lf.Valid() && 0 <= i < lf.cbs.Length && 0 <= k < n <= |b| && 0 <= i < |st.handles| && HandleOK(st, i)
    requires if st.handles[i].Open? then lf.Files() == Write(st, i, b[..k]) else lf.Files() == st
    requires st.handles[i].Open? ==> Small(Write(st, i, b[..n]).texts)
    ensures lf.BelowLimit(i)
  {
    hide Good, Overwrite;
    if st.handles[i].Open? {
      var f, pos := st.handles[i].file, st.handles[i].pos;
      OverwriteLength(st.texts[f], pos, b[..k]);
      OverwriteLength(st.texts[f], pos, b[..n]);
      var now := Overwrite(st.texts[f], pos, b[..k]);
      assert Write(st, i, b[..n]).texts[f] == Overwrite(st.texts[f], pos, b[..n]);
      assert lf.Files().texts[f] == now && lf.Files().handles[i] == Open(f, pos + k);
    }
  }
}
