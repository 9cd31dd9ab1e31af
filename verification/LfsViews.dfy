/** The files as the control blocks and the layout show them, and what the operations of the local file system need to
    know about index blocks, sizes and buffers. */
module LfsViews {
  import opened LfsDisk
  import opened LfsSpec
  import opened LfsState
  import opened LfsSteps
  import opened LfsTruncate
  import opened LfsCount
  import opened Sequences

  /** Only file `f` changed, and what it gained in blocks the free lists lost. */
  ghost predicate Grown(l0: Layout, l: Layout, f: int) {
    && |l.files| == |l0.files| && 0 <= f < |l.files| && l.files == l0.files[f := l.files[f]]
    && l.files[f].text == l0.files[f].text && l.files[f].cb == l0.files[f].cb
    && |l.ifree| + |l.files[f].chain| == |l0.ifree| + |l0.files[f].chain|
    && |l.dfree| + |l.files[f].blocks| == |l0.dfree| + |l0.files[f].blocks|
  }

  /** The directory on disk lacks at most some entries at the end of the one in memory, all of empty files. */
  ghost predicate Lags(diskDir: Dir, dir: Dir) {
    && diskDir.dfree == dir.dfree && diskDir.ifree == dir.ifree
    && |diskDir.files| <= |dir.files| && diskDir.files == dir.files[..|diskDir.files|]
    && forall f :: |diskDir.files| <= f < |dir.files| ==> dir.files[f].size == 0
  }

  lemma LagsSelf(dir: Dir)
    ensures Lags(dir, dir)
  {
  }

  /** Having the blocks of position `pos` in memory takes a free block that is not there. */
  ghost predicate NoBlocks(lay: Layout, f: int, pos: int)
    requires 0 <= f < |lay.files|
  {
    || (pos / IDATA >= |lay.files[f].chain| && lay.ifree == [])
    || (pos / BLKSIZ >= |lay.files[f].blocks| && lay.dfree == [])
  }

  /** The directory says whether there are free blocks, and which is the first. */
  lemma FreeTops(fs: Fs, lay: Layout, f: int)
    requires Good(fs, lay, f)
    ensures lay.ifree == [] ==> fs.dir.ifree == NULLID
    ensures lay.ifree != [] ==> 0 <= fs.dir.ifree < |fs.ibs|
    ensures lay.dfree == [] ==> fs.dir.dfree == NULLID
    ensures lay.dfree != [] ==> DataStart(|fs.ibs|) <= fs.dir.dfree < |fs.data|
  {
    hide FileAt, TightAt, OwnerOK, Part, Signed;
    if lay.ifree != [] { assert IFreeAt(fs.ibs, lay.ifree, |lay.ifree| - 1); }
    if lay.dfree != [] { NextBlock(fs, lay, f); }
  }

  lemma Offset(fs: Fs, lay: Layout, i: int, f: int)
    requires Good(fs, lay, f) && Opened(fs, lay, i, f) && fs.cbs[i].inum != NULLID
    ensures fs.cbs[i].iblock.offset == IDATA * lay.files[f].ci
              && 0 <= lay.files[f].ci < |lay.files[f].chain| <= CHAINMAX
  {
    hide Good, Holds;
    OpenedFile(fs, lay, i, f, f);
  }

  /** Where the position lies in a file of no more blocks than it needs. */
  lemma Placing(fs: Fs, lay: Layout, i: int, f: int)
    requires Good(fs, lay, f) && Opened(fs, lay, i, f) && Tight(lay.files[f])
    ensures
      var fl := lay.files[f];
      var pos := fs.cbs[i].pos;
      && 0 <= pos <= |fl.text| && pos / BLKSIZ <= |fl.blocks|
      && (fl.chain == [] ==> fl.blocks == [] && pos == 0)
      && (pos >= IDATA * |fl.chain| ==> |fl.blocks| == IBLEN * |fl.chain| && pos / IDATA == |fl.chain|)
      && (pos / BLKSIZ < |fl.blocks| ==> pos < IDATA * |fl.chain|)
  {
    hide Good, Holds, IbOf;
    OpenedFile(fs, lay, i, f, f);
  }

  lemma GrownFree(l0: Layout, l: Layout, f: int)
    requires Grown(l0, l, f)
    ensures |l.files| == |l0.files| && |l.ifree| + |l.files[f].chain| == |l0.ifree| + |l0.files[f].chain|
    ensures l.files[f].text == l0.files[f].text
  {
  }

  function StoreOf(cbs: seq<Cblk>, files: seq<File>): (st: Store)
    ensures |st.texts| == |files| && |st.handles| == |cbs|
  {
    Store(seq(|files|, f requires 0 <= f < |files| => files[f].text),
          seq(|cbs|, i requires 0 <= i < |cbs| => if cbs[i].used then Open(cbs[i].file, cbs[i].pos) else Closed))
  }

  lemma HandlesGood(fs: Fs, lay: Layout, i: int)
    requires Good(fs, lay, -1) && 0 <= i < |fs.cbs|
    ensures HandleOK(StoreOf(fs.cbs, lay.files), i)
  {
    hide Good, Holds, IbOf;
    if fs.cbs[i].used {
      OpenedHas(fs, lay, i, -1);
      OpenedFile(fs, lay, i, fs.cbs[i].file, -1);
    }
  }

  /** The store after a change to one handle and its file. */
  lemma StoreWith(cbs: seq<Cblk>, files: seq<File>, cbs': seq<Cblk>, files': seq<File>, i: int)
    requires 0 <= i < |cbs| && |cbs'| == |cbs| && cbs[i].used && HandleOK(StoreOf(cbs, files), i)
    requires |files'| == |files| && files' == files[cbs[i].file := files'[cbs[i].file]]
    requires cbs' == cbs[i := cbs'[i]] && cbs'[i].used && cbs'[i].file == cbs[i].file
    ensures StoreOf(cbs', files') == With(StoreOf(cbs, files), i, files'[cbs[i].file].text, cbs'[i].pos)
  {
    var st, st' := StoreOf(cbs, files), StoreOf(cbs', files');
    assert st'.texts == st.texts[cbs[i].file := files'[cbs[i].file].text];
    assert st'.handles == st.handles[i := Open(cbs[i].file, cbs'[i].pos)];
  }

  lemma StoreClosed(cbs: seq<Cblk>, files: seq<File>, cbs': seq<Cblk>, files': seq<File>, i: int)
    requires 0 <= i < |cbs| && |cbs'| == |cbs| && cbs' == cbs[i := cbs'[i]] && !cbs'[i].used
    requires |files'| == |files| && forall f :: 0 <= f < |files| ==> files'[f].text == files[f].text
    ensures StoreOf(cbs', files') == StoreOf(cbs, files).(handles := StoreOf(cbs, files).handles[i := Closed])
  {
    var st, st' := StoreOf(cbs, files), StoreOf(cbs', files');
    assert st'.texts == st.texts;
    assert st'.handles == st.handles[i := Closed];
  }

  lemma StoreOpened(cbs: seq<Cblk>, files: seq<File>, cbs': seq<Cblk>, files': seq<File>, i: int, f: int)
    requires 0 <= i < |cbs| && |cbs'| == |cbs| && cbs' == cbs[i := cbs'[i]] && cbs'[i].used && cbs'[i].file == f
              && cbs'[i].pos == 0
    requires |files'| == |files| && forall f :: 0 <= f < |files| ==> files'[f].text == files[f].text
    ensures StoreOf(cbs', files') == StoreOf(cbs, files).(handles := StoreOf(cbs, files).handles[i := Open(f, 0)])
  {
    var st, st' := StoreOf(cbs, files), StoreOf(cbs', files');
    assert st'.texts == st.texts;
    assert st'.handles == st.handles[i := Open(f, 0)];
  }

  lemma StoreLonger(cbs: seq<Cblk>, files: seq<File>, files': seq<File>)
    requires |files'| == |files| + 1 && files' == files + [files'[|files|]] && files'[|files|].text == []
    ensures StoreOf(cbs, files') == StoreOf(cbs, files).(texts := StoreOf(cbs, files).texts + [[]])
  {
    var st, st' := StoreOf(cbs, files), StoreOf(cbs, files');
    assert st'.texts == st.texts + [[]];
  }

  lemma InsideHasBlock(fl: File, pos: int)
    requires Tight(fl) && 0 <= pos < |fl.text|
    ensures pos / BLKSIZ < |fl.blocks| && pos / IDATA < |fl.chain|
  {
  }

  lemma SameTight(fl: File, fl': File)
    requires Tight(fl) && fl'.text == fl.text && |fl'.chain| == |fl.chain| && |fl'.blocks| == |fl.blocks|
    ensures Tight(fl')
  {
  }

  lemma StartFree(fs: Fs, lay: Layout, f: int)
    requires Good(fs, lay, f) && 0 <= f < |lay.files|
    ensures fs.dir.dfree == Under(lay.dfree + lay.files[f].blocks, |lay.dfree|)
  {
    hide Part, FileAt, TightAt, OwnerOK;
  }

  lemma ClearedGood(fs: Fs, lay: Layout, f: int, k: int)
    requires Good(fs, lay, f) && 0 <= f < |lay.files| && 0 <= k < |lay.files[f].chain|
    ensures GoodIb(ClearedIb(lay.files[f], k, fs.dir.ifree))
  {
    hide FileAt, TightAt, OwnerOK, PlaceOK;
    GoodPlaces(fs, lay, f, f);
    if k + 1 < |lay.files[f].chain| {
      assert ChainUsed(fs, lay, f, k + 1);
    } else if lay.ifree != [] {
      assert FreeAt(lay.ifree, lay.iplace, |lay.ifree| - 1);
    }
  }

  lemma PutOne(st: Store, i: int, b: seq<byte>, k: int)
    requires 0 <= i < |st.handles| && HandleOK(st, i) && 0 <= k < |b|
    ensures !st.handles[i].Open? ==> Put(st, i, b[k]) == Reply(st, SYSERR)
    ensures st.handles[i].Open? ==>
              HandleOK(Write(st, i, b[..k]), i)
              && Put(Write(st, i, b[..k]), i, b[k]) == Reply(Write(st, i, b[..k + 1]), OK)
  {
    if st.handles[i].Open? {
      var f, pos := st.handles[i].file, st.handles[i].pos;
      WriteOK(st, i, b[..k]);
      PutOverwrite(st.texts[f], pos, b, k);
    }
  }

  /** A longer write needs no fewer blocks. */
  lemma WriteGrows(st: Store, i: int, b: seq<byte>, k: int, n: int, ni: int, nd: int)
    requires 0 <= i < |st.handles| && HandleOK(st, i) && st.handles[i].Open? && 0 <= k <= n <= |b|
    requires TextsFit(Write(st, i, b[..n]).texts, ni, nd)
    ensures TextsFit(Write(st, i, b[..k]).texts, ni, nd)
  {
    hide Overwrite, DataTotal, IndexTotal, DataNeed, IndexNeed;
    var f, pos := st.handles[i].file, st.handles[i].pos;
    var now, text := Overwrite(st.texts[f], pos, b[..k]), Overwrite(st.texts[f], pos, b[..n]);
    OverwriteLength(st.texts[f], pos, b[..k]);
    OverwriteLength(st.texts[f], pos, b[..n]);
    TotalUpdate(st.texts, f, now);
    TotalUpdate(st.texts, f, text);
    if |now| < |text| { NeedMore(|now|, |text|); }
  }

  /** One byte more takes one block more exactly at the end of a block. */
  lemma NeedPlus(n: nat)
    ensures DataNeed(n + 1) == DataNeed(n) + (if n % BLKSIZ == 0 then 1 else 0)
    ensures IndexNeed(n + 1) == IndexNeed(n) + (if n % IDATA == 0 then 1 else 0)
    ensures n / BLKSIZ >= DataNeed(n) <==> n % BLKSIZ == 0
    ensures n / IDATA >= IndexNeed(n) <==> n % IDATA == 0
    ensures n % IDATA == 0 ==> n % BLKSIZ == 0
  {
  }

  /** The blocks of the disk suffice for one more byte exactly if those of its position are there or free. */
  lemma PutFitsIff(fs: Fs, lay: Layout, i: int, ch: byte)
    requires Good(fs, lay, -1) && 0 <= i < |fs.cbs| && DataStart(|fs.ibs|) <= |fs.data|
    ensures
      var st := StoreOf(fs.cbs, lay.files);
      var cb := fs.cbs[i];
      && HandleOK(st, i) && (cb.used ==> 0 <= cb.file < |lay.files|)
      && (TextsFit(Put(st, i, ch).store.texts, |fs.ibs|, |fs.data| - DataStart(|fs.ibs|)) <==>
            !(cb.used && cb.bpos >= BLKSIZ && NoBlocks(lay, cb.file, cb.pos)))
  {
    hide Good, Holds, IbOf, FileOK, DataTotal, IndexTotal, DataNeed, IndexNeed, Tight;
    var st := StoreOf(fs.cbs, lay.files);
    HandlesGood(fs, lay, i);
    BlocksConserved(fs, lay, st.texts);
    if fs.cbs[i].used {
      var f := fs.cbs[i].file;
      var text, pos := lay.files[f].text, fs.cbs[i].pos;
      OpenedHas(fs, lay, i, -1);
      FileTight(fs, lay, f);
      TightNeeds(lay.files[f]);
      TotalUpdate(st.texts, f, PutText(text, pos, ch));
      assert Put(st, i, ch).store.texts == st.texts[f := PutText(text, pos, ch)];
      if pos < |text| {
        InsideHasBlock(lay.files[f], pos);
      } else {
        NeedPlus(pos);
        if fs.cbs[i].bpos < BLKSIZ {
          OpenHole(fs, lay, f);
          PointedAt(fs, lay, i, f);
        }
      }
    }
  }

  /** A file of size 0 has no blocks. */
  lemma EmptyHas(fs: Fs, lay: Layout, f: int)
    requires Good(fs, lay, -1) && 0 <= f < |lay.files|
    ensures f < |fs.dir.files| == |lay.files|
    ensures fs.dir.files[f].size == 0 ==>
              && lay.files[f].text == lay.files[f].chain == lay.files[f].blocks == []
              && fs.dir.files[f] == Entry(0, NULLID) && Reversed(lay.files[f].chain) == []
  {
    hide Part, FreeOK, OwnerOK, Holds, IbOf;
    FileTight(fs, lay, f);
    assert FileAt(fs, lay, f);
  }

  lemma FileTight(fs: Fs, lay: Layout, f: int)
    requires Good(fs, lay, -1) && 0 <= f < |lay.files|
    ensures Tight(lay.files[f])
  {
    hide Part, FileAt, FreeOK, OwnerOK;
    assert TightAt(lay.files, f);
  }

  /** The cursor `n` bytes further on. */
  function Skip(st: Store, i: int, n: nat): Store
    requires 0 <= i < |st.handles| && HandleOK(st, i) && st.handles[i].Open?
  {
    var h := st.handles[i];
    With(st, i, st.texts[h.file], h.pos + n)
  }

  lemma SkipNothing(st: Store, i: int)
    requires 0 <= i < |st.handles| && HandleOK(st, i) && st.handles[i].Open?
    ensures Skip(st, i, 0) == st
  {
    var h := st.handles[i];
    assert Skip(st, i, 0).texts == st.texts && Skip(st, i, 0).handles == st.handles;
  }

  /** The first `k` bytes have been read. */
  ghost predicate BufferIs(s: seq<byte>, b: seq<byte>, was: seq<byte>, k: int) {
    0 <= k <= |b| <= |was| && s == b[..k] + was[k..]
  }

  lemma BufferStep(b: seq<byte>, was: seq<byte>, k: int)
    requires 0 <= k < |b| <= |was|
    ensures (b[..k] + was[k..])[k := b[k]] == b[..k + 1] + was[k + 1..]
  {
  }

  lemma BufferEnds(s: seq<byte>, b: seq<byte>, was: seq<byte>)
    ensures |b| <= |was| ==> (BufferIs(s, b, was, 0) <==> s == was)
    ensures BufferIs(s, b, was, |b|) ==> s == b + was[|b|..]
  {
    if |b| <= |was| { assert b[..0] + was[0..] == was; }
    assert b[..|b|] == b;
  }

  lemma GetOne(st: Store, i: int, k: nat, n: nat)
    requires 0 <= i < |st.handles| && HandleOK(st, i) && k < n
    ensures !st.handles[i].Open? ==> Get(st, i) == Reply(st, SYSERR)
    ensures st.handles[i].Open? && k < |Available(st, i, n)| ==>
              HandleOK(Skip(st, i, k), i) && Get(Skip(st, i, k), i) == Reply(Skip(st, i, k + 1), Available(st, i, n)[k])
    ensures st.handles[i].Open? && k == |Available(st, i, n)| ==>
              HandleOK(Skip(st, i, k), i) && Get(Skip(st, i, k), i) == Reply(Skip(st, i, k), EOF)
  {
    if st.handles[i].Open? && k < |Available(st, i, n)| {
      var f := st.handles[i].file;
      var st1 := Skip(st, i, k);
      assert st1.texts == st.texts;
      assert Skip(st, i, k + 1) == Get(st1, i).store;
    }
  }

  lemma WriteNothing(st: Store, i: int, b: seq<byte>)
    requires 0 <= i < |st.handles| && HandleOK(st, i) && st.handles[i].Open? && b == []
    ensures Write(st, i, b) == st
  {
    var h := st.handles[i];
    assert Overwrite(st.texts[h.file], h.pos, b) == st.texts[h.file];
    assert Write(st, i, b).texts == st.texts && Write(st, i, b).handles == st.handles;
  }

  lemma OverwriteLength(text: seq<byte>, pos: int, b: seq<byte>)
    requires 0 <= pos <= |text|
    ensures |Overwrite(text, pos, b)| == if pos + |b| > |text| then pos + |b| else |text|
  {
  }

  lemma NeedMore(n: nat, m: nat)
    requires n < m
    ensures DataNeed(n) <= DataNeed(m) && IndexNeed(n) <= IndexNeed(m)
    ensures n % BLKSIZ == 0 ==> DataNeed(n) < DataNeed(m)
    ensures n % IDATA == 0 ==> IndexNeed(n) < IndexNeed(m)
  {
  }

  lemma PointedAt(fs: Fs, lay: Layout, i: int, f: int)
    requires Good(fs, lay, f) && Opened(fs, lay, i, f) && fs.cbs[i].bpos < BLKSIZ
    ensures 0 <= fs.cbs[i].pos && fs.cbs[i].pos / BLKSIZ < |lay.files[f].blocks|
  {
    hide Good, Holds, IbOf;
    OpenedFile(fs, lay, i, f, f);
  }

  /** A file with the blocks that the cursor needs has no more than it needs once the byte is there. */
  lemma TightPut(fl: File, fl': File, pos: int, ch: byte)
    requires Tight(fl) && 0 <= pos <= |fl.text| && fl'.text == PutText(fl.text, pos, ch)
    requires |fl'.blocks| == Max(|fl.blocks|, pos / BLKSIZ + 1) && |fl'.chain| == Max(|fl.chain|, pos / IDATA + 1)
    ensures Tight(fl')
  {
  }

  lemma GrownSelf(l: Layout, f: int)
    requires 0 <= f < |l.files|
    ensures Grown(l, l, f)
  {
  }

  lemma GrownThen(l0: Layout, l1: Layout, l2: Layout, f: int)
    requires Grown(l0, l1, f) && Grown(l1, l2, f)
    ensures Grown(l0, l2, f)
  {
  }

  lemma FirstOffset(fl: File)
    ensures IbOf(fl, 0).offset == 0
  {
  }

  lemma IbSays(fl: File, j: int)
    ensures IbOf(fl, j).offset == IDATA * j && IbOf(fl, j).next == Nth(fl.chain, j + 1)
  {
  }

  lemma IbDba(fl: File, pos: int)
    requires 0 <= pos
    ensures |IbOf(fl, pos / IDATA).dba| == IBLEN && 0 <= pos % IDATA / BLKSIZ < IBLEN
    ensures IbOf(fl, pos / IDATA).dba[pos % IDATA / BLKSIZ] == Nth(fl.blocks, pos / BLKSIZ)
    ensures pos % IDATA / BLKSIZ == pos / BLKSIZ % IBLEN && pos / IDATA == pos / BLKSIZ / IBLEN
  {
    var d := IbOf(fl, pos / IDATA).dba;
    assert d[pos % IDATA / BLKSIZ] == Nth(fl.blocks, IBLEN * (pos / IDATA) + pos % IDATA / BLKSIZ);
  }

  lemma NextNotNull(fs: Fs, lay: Layout, f: int)
    requires Good(fs, lay, f) && 0 <= f < |lay.files|
    ensures Sized(fs, lay) && (fs.dir.files[f].ilist == NULLID <==> lay.files[f].chain == [])
    ensures forall j :: 0 <= j < |lay.files[f].chain| ==> lay.files[f].chain[j] != NULLID
    ensures forall j :: 0 <= j < |lay.files[f].blocks| ==> lay.files[f].blocks[j] != NULLID
  {
    hide Part, FreeOK, OwnerOK, Tight, Holds, IbOf;
    GoodPlaces(fs, lay, f, f);
    assert FileAt(fs, lay, f);
    forall j | 0 <= j < |lay.files[f].chain| ensures lay.files[f].chain[j] != NULLID {
      assert ChainUsed(fs, lay, f, j);
    }
    forall j | 0 <= j < |lay.files[f].blocks| ensures lay.files[f].blocks[j] != NULLID {
      assert BlockUsed(fs, lay, f, j);
    }
  }

  // ---------- Runs ----------

  /** The blocks of the disk suffice for these files. */
  ghost predicate TextsFit(texts: seq<seq<byte>>, ni: int, nd: int) {
    DataTotal(texts) <= nd && IndexTotal(texts) <= ni
  }

  /** All sizes are numbers of 32 bits. */
  ghost predicate Small(texts: seq<seq<byte>>) {
    forall f :: 0 <= f < |texts| ==> |texts[f]| < 0x1_0000_0000
  }

  /** The blocks suffice after each operation of a run. */
  ghost predicate RunFits(st: Store, ops: seq<Op>, ni: int, nd: int)
    decreases |ops|
  {
    ops == [] || !CanDo(st, ops[0]) || !HandleOK(st, ops[0].i)
    || (TextsFit(Do(st, ops[0]).store.texts, ni, nd) && RunFits(Do(st, ops[0]).store, ops[1..], ni, nd))
  }

  /** The sizes are small after each operation of a run. */
  ghost predicate RunSmall(st: Store, ops: seq<Op>)
    decreases |ops|
  {
    ops == [] || !CanDo(st, ops[0]) || !HandleOK(st, ops[0].i)
    || (Small(Do(st, ops[0]).store.texts) && RunSmall(Do(st, ops[0]).store, ops[1..]))
  }
}
