/** What each step of the local file system keeps: the flushes and loads of the cached blocks, the allocation of
    blocks, and the accesses to a byte. */
module LfsSteps {
  import opened LfsDisk
  import opened LfsState
  import opened LfsSpec
  import opened Sequences

  /** Control block `i` is in use, for file `f`. */
  ghost predicate Opened(fs: Fs, lay: Layout, i: int, f: int) {
    && 0 <= i < |fs.cbs| && fs.cbs[i].used && fs.cbs[i].file == f
    && 0 <= f < |lay.files| && |lay.files| == |fs.dir.files| && lay.files[f].cb == i
  }

  lemma OpenedHas(fs: Fs, lay: Layout, i: int, hole: int)
    requires Good(fs, lay, hole) && 0 <= i < |fs.cbs| && fs.cbs[i].used
    ensures Opened(fs, lay, i, fs.cbs[i].file)
  {
    hide Part, FreeOK, FileAt, Tight;
    assert OwnerOK(fs, lay, i);
  }

  lemma OpenedFile(fs: Fs, lay: Layout, i: int, f: int, hole: int)
    requires Good(fs, lay, hole) && Opened(fs, lay, i, f)
    ensures FileOK(fs.ibs, fs.data, fs.dir.files[f], fs.cbs[i], lay.files[f])
    ensures CacheOK(fs.cbs[i], lay.files[f]) && Sized(fs, lay)
  {
    hide Part, FreeOK, OwnerOK, Tight;
    assert FileAt(fs, lay, f);
  }

  lemma GoodSized(fs: Fs, lay: Layout)
    requires Good(fs, lay, -1)
    ensures Sized(fs, lay)
  {
  }

  /** Nothing changed but blocks of file `f`. */
  ghost predicate OwnOnly<T(!new)>(place: seq<Place>, f: int, s: seq<T>, s': seq<T>) {
    |s'| == |s| && |place| == |s| && forall b :: 0 <= b < |s| ==> NotOwnSame(place, f, s, s', b)
  }

  ghost predicate NotOwnSame<T(!new)>(place: seq<Place>, f: int, s: seq<T>, s': seq<T>, b: int)
    requires 0 <= b < |s| && |s'| == |s| && |place| == |s|
  {
    !(place[b].Used? && place[b].file == f) ==> s'[b] == s[b]
  }

  lemma OwnKeepsOthers<T(!new)>(place: seq<Place>, f: int, s: seq<T>, s': seq<T>)
    requires OwnOnly(place, f, s, s')
    ensures KeepsOthers(place, f, s, s')
  {
    forall b | 0 <= b < |s| ensures KeptAt(place, f, s, s', b) { assert NotOwnSame(place, f, s, s', b); }
  }

  lemma OwnSame<T(!new)>(place: seq<Place>, f: int, s: seq<T>)
    requires |place| == |s|
    ensures OwnOnly(place, f, s, s)
  {
  }

  lemma FreeFrame(fs: Fs, lay: Layout, fs': Fs, f: int)
    requires Sized(fs, lay) && FreeOK(fs.ibs, fs.data, fs.dir, lay.ifree, lay.dfree)
    requires Part(0, Chains(lay.files), lay.ifree, lay.iplace)
              && Part(DataStart(|fs.ibs|), Blocks(lay.files), lay.dfree, lay.dplace)
    requires OwnOnly(lay.iplace, f, fs.ibs, fs'.ibs) && OwnOnly(lay.dplace, f, fs.data, fs'.data)
    requires fs'.dir.ifree == fs.dir.ifree && fs'.dir.dfree == fs.dir.dfree
    ensures FreeOK(fs'.ibs, fs'.data, fs'.dir, lay.ifree, lay.dfree)
  {
    hide PlaceOK;
    forall j | 0 <= j < |lay.ifree| ensures IFreeAt(fs'.ibs, lay.ifree, j) {
      assert IFreeAt(fs.ibs, lay.ifree, j) && FreeAt(lay.ifree, lay.iplace, j);
      assert NotOwnSame(lay.iplace, f, fs.ibs, fs'.ibs, lay.ifree[j]);
    }
    forall j | 0 <= j < |lay.dfree| ensures DFreeAt(fs'.data, lay.dfree, j) {
      assert DFreeAt(fs.data, lay.dfree, j) && FreeAt(lay.dfree, lay.dplace, j);
      assert NotOwnSame(lay.dplace, f, fs.data, fs'.data, lay.dfree[j]);
    }
  }

  /** A step that leaves the blocks where they are. */
  lemma SamePlaces(fs: Fs, lay: Layout, fs': Fs, fl': File, i: int, f: int)
    requires Good(fs, lay, f) && Opened(fs, lay, i, f)
    requires fl'.chain == lay.files[f].chain && fl'.blocks == lay.files[f].blocks && fl'.cb == i
    requires |fs'.dir.files| == |fs.dir.files| && fs'.dir == fs.dir.(files := fs.dir.files[f := fs'.dir.files[f]])
    requires |fs'.cbs| == |fs.cbs| && fs'.cbs == fs.cbs[i := fs'.cbs[i]] && fs'.cbs[i].used && fs'.cbs[i].file == f
    requires OwnOnly(lay.iplace, f, fs.ibs, fs'.ibs) && OwnOnly(lay.dplace, f, fs.data, fs'.data)
    requires FileOK(fs'.ibs, fs'.data, fs'.dir.files[f], fs'.cbs[i], fl')
    ensures Good(fs', lay.(files := lay.files[f := fl']), f)
  {
    hide Part, FileOK, Tight, OwnOnly;
    var lay' := lay.(files := lay.files[f := fl']);
    OwnKeepsOthers(lay.iplace, f, fs.ibs, fs'.ibs);
    OwnKeepsOthers(lay.dplace, f, fs.data, fs'.data);
    FreeFrame(fs, lay, fs', f);
    assert Chains(lay'.files) == Chains(lay.files);
    assert Blocks(lay'.files) == Blocks(lay.files);
    OwnLengths(lay.iplace, f, fs.ibs, fs'.ibs);
    OwnLengths(lay.dplace, f, fs.data, fs'.data);
    GoodAgain(fs, lay, fs', lay', f);
  }

  lemma OwnLengths<T(!new)>(place: seq<Place>, f: int, s: seq<T>, s': seq<T>)
    requires OwnOnly(place, f, s, s')
    ensures |s'| == |s| && |place| == |s|
  {
  }

  lemma GoodPlaces(fs: Fs, lay: Layout, f: int, hole: int)
    requires Good(fs, lay, hole) && 0 <= f < |lay.files|
    ensures Sized(fs, lay)
    ensures NoDup(lay.files[f].chain) && NoDup(lay.files[f].blocks)
    ensures forall j :: 0 <= j < |lay.files[f].chain| ==> ChainUsed(fs, lay, f, j)
    ensures forall j :: 0 <= j < |lay.files[f].blocks| ==> BlockUsed(fs, lay, f, j)
  {
    hide FreeOK, FileAt, Tight, OwnerOK;
    PartNoDup(0, Chains(lay.files), lay.ifree, lay.iplace, f);
    PartNoDup(DataStart(|fs.ibs|), Blocks(lay.files), lay.dfree, lay.dplace, f);
    forall j | 0 <= j < |lay.files[f].chain| ensures ChainUsed(fs, lay, f, j) {
      assert UsedAt(Chains(lay.files), lay.iplace, f, j);
    }
    forall j | 0 <= j < |lay.files[f].blocks| ensures BlockUsed(fs, lay, f, j) {
      assert UsedAt(Blocks(lay.files), lay.dplace, f, j);
      assert PlaceOK(DataStart(|fs.ibs|), Blocks(lay.files), lay.dfree, lay.dplace, lay.files[f].blocks[j]);
    }
  }

  ghost predicate ChainUsed(fs: Fs, lay: Layout, f: int, j: int)
    requires 0 <= f < |lay.files| && 0 <= j < |lay.files[f].chain| && Sized(fs, lay)
  {
    0 <= lay.files[f].chain[j] < |fs.ibs| && lay.iplace[lay.files[f].chain[j]] == Used(f, j)
  }

  ghost predicate BlockUsed(fs: Fs, lay: Layout, f: int, j: int)
    requires 0 <= f < |lay.files| && 0 <= j < |lay.files[f].blocks| && Sized(fs, lay)
  {
    DataStart(|fs.ibs|) <= lay.files[f].blocks[j] < |fs.data| && lay.dplace[lay.files[f].blocks[j]] == Used(f, j)
  }

  // ---------- Index blocks are well formed ----------

  lemma IbGood(fs: Fs, lay: Layout, f: int, hole: int, j: int)
    requires Good(fs, lay, hole) && 0 <= f < |lay.files| && 0 <= j < |lay.files[f].chain|
    ensures GoodIb(IbOf(lay.files[f], j))
  {
    hide Part, FreeOK, Tight, OwnerOK, CacheOK;
    GoodPlaces(fs, lay, f, hole);
    var fl := lay.files[f];
    assert FileAt(fs, lay, f);
    if j + 1 < |fl.chain| { assert ChainUsed(fs, lay, f, j + 1); }
    var dba := IbOf(fl, j).dba;
    forall i | 0 <= i < IBLEN ensures Int32(dba[i]) {
      assert dba[i] == Nth(fl.blocks, IBLEN * j + i);
      if IBLEN * j + i < |fl.blocks| { assert BlockUsed(fs, lay, f, IBLEN * j + i); }
    }
  }

  // ---------- Flushing ----------

  lemma NoDupAt(s: seq<int>, i: int, j: int)
    requires NoDup(s) && 0 <= i < |s| && 0 <= j < |s| && i != j
    ensures s[i] != s[j]
  {
    if i < j { assert Differ(s, i, j); } else { assert Differ(s, j, i); }
  }

  lemma {:induction false} FlushDataFile(ibs: seq<IBlock>, data: seq<Sector>, e: Entry, cb: Cblk, fl: File)
    requires FileOK(ibs, data, e, cb, fl) && cb.dbdirty && NoDup(fl.blocks) && 0 <= cb.dnum < |data|
    ensures FileOK(ibs, data[cb.dnum := cb.dblock], e, cb.(dbdirty := false), fl)
  {
    hide IbOf, Holds;
    var cb' := cb.(dbdirty := false);
    var data' := data[cb.dnum := cb.dblock];
    forall j | 0 <= j < |fl.chain| ensures IndexAt(ibs, cb', fl, j) { assert IndexAt(ibs, cb, fl, j); }
    forall j | 0 <= j < |fl.blocks| ensures DataAt(data', cb', fl, j) {
      assert DataAt(data, cb, fl, j);
      if j != fl.di { NoDupAt(fl.blocks, j, fl.di); }
    }
  }

  lemma FlushData(fs: Fs, lay: Layout, i: int, f: int)
    requires Good(fs, lay, f) && Opened(fs, lay, i, f) && fs.cbs[i].dbdirty
    ensures DataStart(|fs.ibs|) <= fs.cbs[i].dnum < |fs.data|
    ensures
      var cb := fs.cbs[i];
      Good(fs.(data := fs.data[cb.dnum := cb.dblock], cbs := fs.cbs[i := cb.(dbdirty := false)]), lay, f)
  {
    hide Good, FileOK, Holds, IbOf, OwnOnly;
    var cb := fs.cbs[i];
    var fl := lay.files[f];
    OpenedFile(fs, lay, i, f, f);
    GoodPlaces(fs, lay, f, f);
    assert BlockUsed(fs, lay, f, fl.di);
    FlushDataFile(fs.ibs, fs.data, fs.dir.files[f], cb, fl);
    var fs' := fs.(data := fs.data[cb.dnum := cb.dblock], cbs := fs.cbs[i := cb.(dbdirty := false)]);
    OwnSame(lay.iplace, f, fs.ibs);
    OwnUpdate(lay.dplace, f, fs.data, cb.dnum, cb.dblock);
    SamePlaces(fs, lay, fs', fl, i, f);
    assert lay.(files := lay.files[f := fl]) == lay;
  }

  lemma OwnUpdate<T(!new)>(place: seq<Place>, f: int, s: seq<T>, b: int, x: T)
    requires |place| == |s| && 0 <= b < |s| && place[b].Used? && place[b].file == f
    ensures OwnOnly(place, f, s, s[b := x])
  {
  }

  lemma {:induction false} FlushIndexFile(ibs: seq<IBlock>, data: seq<Sector>, e: Entry, cb: Cblk, fl: File)
    requires FileOK(ibs, data, e, cb, fl) && cb.ibdirty && NoDup(fl.chain) && 0 <= cb.inum < |ibs|
    ensures FileOK(ibs[cb.inum := cb.iblock], data, e, cb.(ibdirty := false), fl)
  {
    hide IbOf, Holds;
    var cb' := cb.(ibdirty := false);
    var ibs' := ibs[cb.inum := cb.iblock];
    forall j | 0 <= j < |fl.blocks| ensures DataAt(data, cb', fl, j) { assert DataAt(data, cb, fl, j); }
    forall j | 0 <= j < |fl.chain| ensures IndexAt(ibs', cb', fl, j) {
      assert IndexAt(ibs, cb, fl, j);
      if j != fl.ci { NoDupAt(fl.chain, j, fl.ci); }
    }
  }

  lemma FlushIndex(fs: Fs, lay: Layout, i: int, f: int)
    requires Good(fs, lay, f) && Opened(fs, lay, i, f) && fs.cbs[i].ibdirty
    ensures 0 <= fs.cbs[i].inum < |fs.ibs| && GoodIb(fs.cbs[i].iblock)
    ensures
      var cb := fs.cbs[i];
      Good(fs.(ibs := fs.ibs[cb.inum := cb.iblock], cbs := fs.cbs[i := cb.(ibdirty := false)]), lay, f)
  {
    hide Good, FileOK, Holds, IbOf, OwnOnly, GoodIb;
    var cb := fs.cbs[i];
    var fl := lay.files[f];
    OpenedFile(fs, lay, i, f, f);
    GoodPlaces(fs, lay, f, f);
    IbGood(fs, lay, f, f, fl.ci);
    assert ChainUsed(fs, lay, f, fl.ci);
    FlushIndexFile(fs.ibs, fs.data, fs.dir.files[f], cb, fl);
    var fs' := fs.(ibs := fs.ibs[cb.inum := cb.iblock], cbs := fs.cbs[i := cb.(ibdirty := false)]);
    OwnSame(lay.dplace, f, fs.data);
    OwnUpdate(lay.iplace, f, fs.ibs, cb.inum, cb.iblock);
    SamePlaces(fs, lay, fs', fl, i, f);
    assert lay.(files := lay.files[f := fl]) == lay;
  }

  // ---------- Changes to the control block alone ----------

  /** A step that touches neither disk nor directory. */
  lemma CacheStep(fs: Fs, lay: Layout, i: int, f: int, cb': Cblk, fl': File)
    requires Good(fs, lay, f) && Opened(fs, lay, i, f)
    requires cb'.used && cb'.file == f && cb'.ibdirty == fs.cbs[i].ibdirty && cb'.dbdirty == fs.cbs[i].dbdirty
    requires fl' == lay.files[f].(ci := fl'.ci, di := fl'.di) && CacheOK(cb', fl')
    requires cb'.ibdirty ==> fl'.ci == lay.files[f].ci
    requires cb'.dbdirty ==> fl'.di == lay.files[f].di
    ensures Good(fs.(cbs := fs.cbs[i := cb']), lay.(files := lay.files[f := fl']), f)
  {
    hide Good, Holds, IbOf, OwnOnly, CacheOK;
    var cb := fs.cbs[i];
    var fl := lay.files[f];
    OpenedFile(fs, lay, i, f, f);
    var fs' := fs.(cbs := fs.cbs[i := cb']);
    forall j | 0 <= j < |fl.chain| ensures IndexAt(fs.ibs, cb', fl', j) {
      assert IndexAt(fs.ibs, cb, fl, j);
      SameIb(fl, fl', j);
    }
    forall j | 0 <= j < |fl.blocks| ensures DataAt(fs.data, cb', fl', j) { assert DataAt(fs.data, cb, fl, j); }
    OwnSame(lay.dplace, f, fs.data);
    OwnSame(lay.iplace, f, fs.ibs);
    SamePlaces(fs, lay, fs', fl', i, f);
  }

  lemma SameIb(fl: File, fl': File, j: int)
    requires fl'.chain == fl.chain && fl'.blocks == fl.blocks
    ensures IbOf(fl', j) == IbOf(fl, j)
  {
  }

  /** Loading index block `c` of the file, which drops the data block if `drop`. */
  lemma LoadIndex(fs: Fs, lay: Layout, i: int, f: int, c: int, drop: bool)
    requires Good(fs, lay, f) && Opened(fs, lay, i, f)
    requires !fs.cbs[i].ibdirty && !fs.cbs[i].dbdirty && fs.cbs[i].bpos == BLKSIZ && 0 <= c < |lay.files[f].chain|
    requires fs.cbs[i].inum == NULLID ==> fs.cbs[i].dnum == NULLID
    ensures 0 <= lay.files[f].chain[c] < |fs.ibs| && fs.ibs[lay.files[f].chain[c]] == IbOf(lay.files[f], c)
    ensures
      var n := lay.files[f].chain[c];
      var cb' := fs.cbs[i].(inum := n, iblock := fs.ibs[n], dnum := if drop then NULLID else fs.cbs[i].dnum);
      Good(fs.(cbs := fs.cbs[i := cb']), lay.(files := lay.files[f := lay.files[f].(ci := c)]), f)
  {
    hide Good, Holds, OwnOnly, IbOf;
    OpenedFile(fs, lay, i, f, f);
    GoodPlaces(fs, lay, f, f);
    var fl := lay.files[f];
    assert ChainUsed(fs, lay, f, c);
    assert IndexAt(fs.ibs, fs.cbs[i], fl, c);
    var n := fl.chain[c];
    SameIb(fl, fl.(ci := c), c);
    CacheStep(fs, lay, i, f, fs.cbs[i].(inum := n, iblock := fs.ibs[n], dnum :=
        if drop then NULLID else fs.cbs[i].dnum), fl.(ci := c));
  }

  /** Loading data block `d` of the file. */
  lemma LoadData(fs: Fs, lay: Layout, i: int, f: int, d: int)
    requires Good(fs, lay, f) && Opened(fs, lay, i, f)
    requires !fs.cbs[i].dbdirty && fs.cbs[i].inum != NULLID && fs.cbs[i].bpos == BLKSIZ
              && 0 <= d < |lay.files[f].blocks|
    ensures DataStart(|fs.ibs|) <= lay.files[f].blocks[d] < |fs.data|
    ensures
      var n := lay.files[f].blocks[d];
      var cb' := fs.cbs[i].(dnum := n, dblock := fs.data[n]);
      Good(fs.(cbs := fs.cbs[i := cb']), lay.(files := lay.files[f := lay.files[f].(di := d)]), f)
  {
    hide Good, Holds, OwnOnly, IbOf;
    OpenedFile(fs, lay, i, f, f);
    GoodPlaces(fs, lay, f, f);
    var fl := lay.files[f];
    assert BlockUsed(fs, lay, f, d);
    assert DataAt(fs.data, fs.cbs[i], fl, d);
    var n := fl.blocks[d];
    SameIb(fl, fl.(di := d), fl.ci);
    CacheStep(fs, lay, i, f, fs.cbs[i].(dnum := n, dblock := fs.data[n]), fl.(di := d));
  }

  /** Pointing lfbyte into the data block, once it is the one of the current position. */
  lemma PointByte(fs: Fs, lay: Layout, i: int, f: int)
    requires Good(fs, lay, f) && Opened(fs, lay, i, f)
    requires fs.cbs[i].dnum != NULLID && fs.cbs[i].dnum == Nth(lay.files[f].blocks, fs.cbs[i].pos / BLKSIZ)
    ensures
      var cb' := fs.cbs[i].(bpos := fs.cbs[i].pos % BLKSIZ);
      Good(fs.(cbs := fs.cbs[i := cb']), lay, f)
    ensures lay.files[f].di == fs.cbs[i].pos / BLKSIZ
  {
    hide Good, Holds, OwnOnly, IbOf;
    OpenedFile(fs, lay, i, f, f);
    GoodPlaces(fs, lay, f, f);
    var fl := lay.files[f];
    var d := fs.cbs[i].pos / BLKSIZ;
    if d != fl.di { NoDupAt(fl.blocks, d, fl.di); }
    CacheStep(fs, lay, i, f, fs.cbs[i].(bpos := fs.cbs[i].pos % BLKSIZ), fl);
    assert lay.(files := lay.files[f := fl]) == lay;
  }

  /** Moving the cursor, which takes lfbyte out of the block. */
  lemma SeekStep(fs: Fs, lay: Layout, i: int, f: int, pos: int)
    requires Good(fs, lay, f) && Opened(fs, lay, i, f) && 0 <= pos <= |lay.files[f].text|
    ensures Good(fs.(cbs := fs.cbs[i := fs.cbs[i].(pos := pos, bpos := BLKSIZ)]), lay, f)
  {
    hide Good, Holds, OwnOnly, IbOf;
    OpenedFile(fs, lay, i, f, f);
    var fl := lay.files[f];
    CacheStep(fs, lay, i, f, fs.cbs[i].(pos := pos, bpos := BLKSIZ), fl);
    assert lay.(files := lay.files[f := fl]) == lay;
  }

  /** Reading the byte at the cursor. */
  lemma GetStep(fs: Fs, lay: Layout, i: int, f: int)
    requires Good(fs, lay, f) && Opened(fs, lay, i, f) && fs.cbs[i].bpos < BLKSIZ && fs.cbs[i].pos < |lay.files[f].text|
    ensures 0 <= fs.cbs[i].pos && 0 <= fs.cbs[i].bpos
              && fs.cbs[i].dblock[fs.cbs[i].bpos] == lay.files[f].text[fs.cbs[i].pos]
    ensures Good(fs.(cbs := fs.cbs[i := fs.cbs[i].(pos := fs.cbs[i].pos + 1, bpos := fs.cbs[i].bpos + 1)]), lay, f)
  {
    hide Good, OwnOnly, IbOf;
    OpenedFile(fs, lay, i, f, f);
    var fl := lay.files[f];
    var cb := fs.cbs[i];
    assert HoldsByte(cb.dblock, fl.text, fl.di, cb.bpos);
    hide Holds;
    CacheStep(fs, lay, i, f, cb.(pos := cb.pos + 1, bpos := cb.bpos + 1), fl);
    assert lay.(files := lay.files[f := fl]) == lay;
  }

  // ---------- Allocation ----------

  lemma TakeIFree(ibs: seq<IBlock>, data: seq<Sector>, dir: Dir, ifree: seq<int>, dfree: seq<int>)
    requires FreeOK(ibs, data, dir, ifree, dfree) && ifree != []
    ensures 0 <= dir.ifree < |ibs| && dir.ifree == ifree[|ifree| - 1]
    ensures FreeOK(ibs, data, dir.(ifree := ibs[dir.ifree].next), ifree[..|ifree| - 1], dfree)
  {
    var n := |ifree| - 1;
    assert IFreeAt(ibs, ifree, n);
    var ifree' := ifree[..n];
    forall j | 0 <= j < n ensures IFreeAt(ibs, ifree', j) { assert IFreeAt(ibs, ifree, j); }
  }

  lemma TakeDFree(ibs: seq<IBlock>, data: seq<Sector>, dir: Dir, ifree: seq<int>, dfree: seq<int>)
    requires FreeOK(ibs, data, dir, ifree, dfree) && dfree != []
    ensures 0 <= dir.dfree < |data| && dir.dfree == dfree[|dfree| - 1]
    ensures FreeOK(ibs, data, dir.(dfree := Signed(data[dir.dfree])), ifree, dfree[..|dfree| - 1])
  {
    var n := |dfree| - 1;
    assert DFreeAt(data, dfree, n);
    var dfree' := dfree[..n];
    forall j | 0 <= j < n ensures DFreeAt(data, dfree', j) { assert DFreeAt(data, dfree, j); }
  }

  lemma FreeDirSame(ibs: seq<IBlock>, data: seq<Sector>, dir: Dir, dir': Dir, ifree: seq<int>, dfree: seq<int>)
    requires FreeOK(ibs, data, dir, ifree, dfree) && dir'.ifree == dir.ifree && dir'.dfree == dir.dfree
    ensures FreeOK(ibs, data, dir', ifree, dfree)
  {
  }

  /** lfibclear */
  function ClearIb(offset: int): IBlock {
    IBlock(NULLID, offset, seq(IBLEN, _ => NULLID))
  }

  /** The layout once the first free index block is appended to file `f`, where it is the one in memory. */
  function TakeIndex(lay: Layout, f: int): Layout
    requires 0 <= f < |lay.files| && lay.ifree != [] && 0 <= lay.ifree[|lay.ifree| - 1] < |lay.iplace|
  {
    var n := |lay.ifree| - 1;
    var fl := lay.files[f];
    lay.(files := lay.files[f := fl.(chain := fl.chain + [lay.ifree[n]], ci := |fl.chain|)], ifree := lay.ifree[..n],
         iplace := TakePlace(Chains(lay.files), lay.ifree, lay.iplace, f))
  }

  function TakeBlock(lay: Layout, f: int): Layout
    requires 0 <= f < |lay.files| && lay.dfree != [] && 0 <= lay.dfree[|lay.dfree| - 1] < |lay.dplace|
  {
    var n := |lay.dfree| - 1;
    var fl := lay.files[f];
    lay.(files := lay.files[f := fl.(blocks := fl.blocks + [lay.dfree[n]], di := |fl.blocks|)], dfree := lay.dfree[..n],
         dplace := TakePlace(Blocks(lay.files), lay.dfree, lay.dplace, f))
  }

  /** What the free list of index blocks offers. */
  lemma NextIndex(fs: Fs, lay: Layout, hole: int)
    requires Good(fs, lay, hole) && lay.ifree != []
    ensures Sized(fs, lay) && 0 <= fs.dir.ifree < |fs.ibs| && fs.dir.ifree == lay.ifree[|lay.ifree| - 1]
    ensures lay.iplace[fs.dir.ifree] == Free(|lay.ifree| - 1)
  {
    hide FileAt, TightAt, OwnerOK, PlaceOK;
    TakeIFree(fs.ibs, fs.data, fs.dir, lay.ifree, lay.dfree);
    assert FreeAt(lay.ifree, lay.iplace, |lay.ifree| - 1);
  }

  lemma NextBlock(fs: Fs, lay: Layout, hole: int)
    requires Good(fs, lay, hole) && lay.dfree != []
    ensures Sized(fs, lay) && DataStart(|fs.ibs|) <= fs.dir.dfree < |fs.data|
              && fs.dir.dfree == lay.dfree[|lay.dfree| - 1]
    ensures lay.dplace[fs.dir.dfree] == Free(|lay.dfree| - 1)
  {
    hide FileAt, TightAt, OwnerOK;
    TakeDFree(fs.ibs, fs.data, fs.dir, lay.ifree, lay.dfree);
    assert FreeAt(lay.dfree, lay.dplace, |lay.dfree| - 1);
    assert PlaceOK(DataStart(|fs.ibs|), Blocks(lay.files), lay.dfree, lay.dplace, fs.dir.dfree);
  }

  /** Appending an index block to a file, given what it makes of the file itself. */
  lemma AllocIndex(fs: Fs, lay: Layout, fs': Fs, i: int, f: int)
    requires Good(fs, lay, f) && Opened(fs, lay, i, f) && lay.ifree != []
    requires 0 <= fs.dir.ifree < |fs.ibs| && 0 <= lay.ifree[|lay.ifree| - 1] < |lay.iplace|
    requires |fs'.cbs| == |fs.cbs|
    requires fs' == Fs(fs'.ibs, fs.data, fs.dir.(ifree := fs.ibs[fs.dir.ifree].next, files := fs'.dir.files),
              fs.cbs[i := fs'.cbs[i]])
    requires |fs'.dir.files| == |fs.dir.files| && fs'.dir.files == fs.dir.files[f := fs'.dir.files[f]]
    requires fs'.cbs[i].used && fs'.cbs[i].file == f
    requires OwnOnly(lay.iplace, f, fs.ibs, fs'.ibs)
    requires FileOK(fs'.ibs, fs'.data, fs'.dir.files[f], fs'.cbs[i], TakeIndex(lay, f).files[f])
    ensures Good(fs', TakeIndex(lay, f), f)
  {
    hide Part, FileOK, Tight, OwnOnly, FreeOK, FreeAt, PlaceOK;
    var lay' := TakeIndex(lay, f);
    NextIndex(fs, lay, f);
    OwnLengths(lay.iplace, f, fs.ibs, fs'.ibs);
    OwnSame(lay.dplace, f, fs.data);
    OwnKeepsOthers(lay.iplace, f, fs.ibs, fs'.ibs);
    OwnKeepsOthers(lay.dplace, f, fs.data, fs'.data);
    FreeFrame(fs, lay, fs.(ibs := fs'.ibs), f);
    OwnAt(lay.iplace, f, fs.ibs, fs'.ibs, fs.dir.ifree);
    TakeIFree(fs'.ibs, fs'.data, fs.dir, lay.ifree, lay.dfree);
    FreeDirSame(fs'.ibs, fs'.data, fs.dir.(ifree := fs'.ibs[fs.dir.ifree].next), fs'.dir, lay'.ifree, lay.dfree);
    TakePart(0, Chains(lay.files), lay.ifree, lay.iplace, f);
    assert Chains(lay'.files) == Chains(lay.files)[f := lay'.files[f].chain];
    assert Blocks(lay'.files) == Blocks(lay.files);
    GoodAgain(fs, lay, fs', lay', f);
  }

  lemma OwnAt<T(!new)>(place: seq<Place>, f: int, s: seq<T>, s': seq<T>, b: int)
    requires OwnOnly(place, f, s, s') && 0 <= b < |s| && 0 <= b < |place| && place[b].Free?
    ensures |s'| == |s| && s'[b] == s[b]
  {
    assert NotOwnSame(place, f, s, s', b);
  }

  lemma AllocBlock(fs: Fs, lay: Layout, fs': Fs, i: int, f: int)
    requires Good(fs, lay, f) && Opened(fs, lay, i, f) && lay.dfree != []
    requires 0 <= fs.dir.dfree < |fs.data| && 0 <= lay.dfree[|lay.dfree| - 1] < |lay.dplace|
    requires |fs'.cbs| == |fs.cbs|
    requires fs' == fs.(dir := fs.dir.(dfree := Signed(fs.data[fs.dir.dfree])), cbs := fs.cbs[i := fs'.cbs[i]])
    requires fs'.cbs[i].used && fs'.cbs[i].file == f
    requires FileOK(fs'.ibs, fs'.data, fs'.dir.files[f], fs'.cbs[i], TakeBlock(lay, f).files[f])
    ensures Good(fs', TakeBlock(lay, f), f)
  {
    hide Part, FileOK, Tight, OwnOnly, FreeOK, FreeAt, PlaceOK;
    var lay' := TakeBlock(lay, f);
    NextBlock(fs, lay, f);
    OwnSame(lay.iplace, f, fs.ibs);
    OwnSame(lay.dplace, f, fs.data);
    OwnKeepsOthers(lay.iplace, f, fs.ibs, fs'.ibs);
    OwnKeepsOthers(lay.dplace, f, fs.data, fs'.data);
    TakeDFree(fs.ibs, fs.data, fs.dir, lay.ifree, lay.dfree);
    TakePart(DataStart(|fs.ibs|), Blocks(lay.files), lay.dfree, lay.dplace, f);
    assert Chains(lay'.files) == Chains(lay.files);
    assert Blocks(lay'.files) == Blocks(lay.files)[f := lay'.files[f].blocks];
    GoodAgain(fs, lay, fs', lay', f);
  }

  /** An empty file gets its first index block. */
  lemma FirstIndex(fs: Fs, lay: Layout, i: int, f: int)
    requires Good(fs, lay, f) && Opened(fs, lay, i, f) && lay.ifree != []
    requires fs.cbs[i].inum == NULLID && lay.files[f].chain == []
    ensures 0 <= fs.dir.ifree < |fs.ibs| && 0 <= lay.ifree[|lay.ifree| - 1] < |lay.iplace|
    ensures
      var n := fs.dir.ifree;
      var dir' := fs.dir.(ifree := fs.ibs[n].next, files := fs.dir.files[f := fs.dir.files[f].(ilist := n)]);
      var cb' := fs.cbs[i].(inum := n, iblock := ClearIb(0), ibdirty := true);
      Good(fs.(dir := dir', cbs := fs.cbs[i := cb']), TakeIndex(lay, f), f)
  {
    hide Good, Holds, OwnOnly;
    OpenedFile(fs, lay, i, f, f);
    NextIndex(fs, lay, f);
    var n := fs.dir.ifree;
    var dir' := fs.dir.(ifree := fs.ibs[n].next, files := fs.dir.files[f := fs.dir.files[f].(ilist := n)]);
    var cb' := fs.cbs[i].(inum := n, iblock := ClearIb(0), ibdirty := true);
    var fs' := fs.(dir := dir', cbs := fs.cbs[i := cb']);
    OwnSame(lay.iplace, f, fs.ibs);
    var fl' := TakeIndex(lay, f).files[f];
    EmptyIb(fl');
    assert FileOK(fs'.ibs, fs'.data, fs'.dir.files[f], cb', fl');
    AllocIndex(fs, lay, fs', i, f);
  }

  lemma EmptyIb(fl: File)
    requires fl.blocks == [] && |fl.chain| == 1
    ensures IbOf(fl, 0) == ClearIb(0)
  {
    var d := IbOf(fl, 0).dba;
    forall i | 0 <= i < IBLEN ensures d[i] == NULLID { assert d[i] == Nth(fl.blocks, i); }
  }

  /** The file itself, when an index block is appended to a chain whose index blocks are full. */
  lemma NextIndexFile(ibs: seq<IBlock>, data: seq<Sector>, e: Entry, cb: Cblk, fl: File, n: int)
    requires FileOK(ibs, data, e, cb, fl) && cb.inum != NULLID && fl.ci == |fl.chain| - 1 && !cb.ibdirty && !cb.dbdirty
    requires |fl.blocks| == IBLEN * |fl.chain| && cb.bpos == BLKSIZ && |fl.chain| < CHAINMAX && NoDup(fl.chain)
    requires 0 <= n < |ibs| && 0 <= cb.inum < |ibs| && n != NULLID && n != cb.inum
    ensures
      var ib' := cb.iblock.(next := n);
      var cb' := cb.(inum := n, iblock := ClearIb(cb.iblock.offset + IDATA), ibdirty := true, dnum := NULLID);
      FileOK(ibs[cb.inum := ib'], data, e, cb', fl.(chain := fl.chain + [n], ci := |fl.chain|))
  {
    hide Holds;
    var ib' := cb.iblock.(next := n);
    var cb' := cb.(inum := n, iblock := ClearIb(cb.iblock.offset + IDATA), ibdirty := true, dnum := NULLID);
    var fl' := fl.(chain := fl.chain + [n], ci := |fl.chain|);
    var ibs' := ibs[cb.inum := ib'];
    forall j | 0 <= j < |fl'.chain| ensures IndexAt(ibs', cb', fl', j) {
      if j < |fl.chain| {
        assert IndexAt(ibs, cb, fl, j);
        if j != fl.ci { NoDupAt(fl.chain, j, fl.ci); }
        IbGrown(fl, fl', j, n);
      }
    }
    forall j | 0 <= j < |fl.blocks| ensures DataAt(data, cb', fl', j) { assert DataAt(data, cb, fl, j); }
    assert cb'.iblock == IbOf(fl', |fl.chain|) by { IbLast(fl, fl', n); }
  }

  lemma IbGrown(fl: File, fl': File, j: int, n: int)
    requires fl'.chain == fl.chain + [n] && fl'.blocks == fl.blocks && 0 <= j < |fl.chain|
    ensures IbOf(fl', j) == if j == |fl.chain| - 1 then IbOf(fl, j).(next := n) else IbOf(fl, j)
  {
  }

  lemma IbLast(fl: File, fl': File, n: int)
    requires fl'.chain == fl.chain + [n] && fl'.blocks == fl.blocks && |fl.blocks| == IBLEN * |fl.chain|
              && fl.chain != []
    ensures IbOf(fl', |fl.chain|) == ClearIb(IbOf(fl, |fl.chain| - 1).offset + IDATA)
  {
    var d := IbOf(fl', |fl.chain|).dba;
    forall i | 0 <= i < IBLEN ensures d[i] == NULLID { assert d[i] == Nth(fl'.blocks, IBLEN * |fl.chain| + i); }
  }

  /** A full chain gets one more index block. */
  lemma MoreIndex(fs: Fs, lay: Layout, i: int, f: int)
    requires Good(fs, lay, f) && Opened(fs, lay, i, f) && lay.ifree != []
    requires !fs.cbs[i].ibdirty && !fs.cbs[i].dbdirty && fs.cbs[i].inum != NULLID && fs.cbs[i].bpos == BLKSIZ
    requires |lay.files[f].blocks| == IBLEN * |lay.files[f].chain| && |lay.files[f].chain| < CHAINMAX
    requires lay.files[f].ci == |lay.files[f].chain| - 1
    ensures 0 <= fs.dir.ifree < |fs.ibs| && 0 <= lay.ifree[|lay.ifree| - 1] < |lay.iplace|
              && 0 <= fs.cbs[i].inum < |fs.ibs|
    ensures GoodIb(fs.cbs[i].iblock.(next := fs.dir.ifree))
    ensures
      var cb := fs.cbs[i];
      var n := fs.dir.ifree;
      var cb' := cb.(inum := n, iblock := ClearIb(cb.iblock.offset + IDATA), ibdirty := true, dnum := NULLID);
      Good(Fs(fs.ibs[cb.inum := cb.iblock.(next := n)], fs.data, fs.dir.(ifree := fs.ibs[n].next), fs.cbs[i := cb']),
          TakeIndex(lay, f), f)
  {
    hide Good, OwnOnly, FileOK, Holds, IbOf;
    OpenedFile(fs, lay, i, f, f);
    NextIndex(fs, lay, f);
    GoodPlaces(fs, lay, f, f);
    var cb := fs.cbs[i];
    var fl := lay.files[f];
    assert ChainUsed(fs, lay, f, fl.ci);
    IbGood(fs, lay, f, f, fl.ci);
    var n := fs.dir.ifree;
    NextIndexFile(fs.ibs, fs.data, fs.dir.files[f], cb, fl, n);
    var cb' := cb.(inum := n, iblock := ClearIb(cb.iblock.offset + IDATA), ibdirty := true, dnum := NULLID);
    var fs' := Fs(fs.ibs[cb.inum := cb.iblock.(next := n)], fs.data, fs.dir.(ifree := fs.ibs[n].next),
        fs.cbs[i := cb']);
    OwnUpdate(lay.iplace, f, fs.ibs, cb.inum, cb.iblock.(next := n));
    AllocIndex(fs, lay, fs', i, f);
  }

  function Filled(): Sector {
    seq(BLKSIZ, _ => 43)
  }

  lemma NewBlockFile(ibs: seq<IBlock>, data: seq<Sector>, e: Entry, cb: Cblk, fl: File, n: int)
    requires FileOK(ibs, data, e, cb, fl) && cb.inum != NULLID && !cb.dbdirty && cb.bpos == BLKSIZ
    requires fl.ci == |fl.blocks| / IBLEN && |fl.text| <= BLKSIZ * |fl.blocks|
    requires 0 <= n < |data| && |cb.iblock.dba| == IBLEN
    ensures
      var d := |fl.blocks|;
      var ib' := cb.iblock.(dba := cb.iblock.dba[d % IBLEN := n]);
      FileOK(ibs, data, e, cb.(iblock := ib', ibdirty := true, dnum := n, dblock := Filled()),
          fl.(blocks := fl.blocks + [n], di := d))
  {
    var d := |fl.blocks|;
    var ib' := cb.iblock.(dba := cb.iblock.dba[d % IBLEN := n]);
    var cb' := cb.(iblock := ib', ibdirty := true, dnum := n, dblock := Filled());
    var fl' := fl.(blocks := fl.blocks + [n], di := d);
    assert Holds(Filled(), fl.text, d) && Holds(data[n], fl.text, d);
    hide Holds, IbOf;
    forall j | 0 <= j < |fl'.chain| ensures IndexAt(ibs, cb', fl', j) {
      assert IndexAt(ibs, cb, fl, j);
      if j != fl.ci { IbOther(fl, fl', n, j); }
    }
    forall j | 0 <= j < |fl'.blocks| ensures DataAt(data, cb', fl', j) {
      if j < d { assert DataAt(data, cb, fl, j); }
    }
    assert cb'.iblock == IbOf(fl', fl.ci) by { IbFilled(fl, fl', n); }
  }

  lemma IbOther(fl: File, fl': File, n: int, j: int)
    requires fl'.blocks == fl.blocks + [n] && fl'.chain == fl.chain && 0 <= j && j != |fl.blocks| / IBLEN
    ensures IbOf(fl', j) == IbOf(fl, j)
  {
    var a, b := IbOf(fl, j).dba, IbOf(fl', j).dba;
    forall i | 0 <= i < IBLEN ensures a[i] == b[i] {
      assert a[i] == Nth(fl.blocks, IBLEN * j + i) && b[i] == Nth(fl'.blocks, IBLEN * j + i);
    }
    assert a == b;
  }

  lemma IbFilled(fl: File, fl': File, n: int)
    requires fl'.blocks == fl.blocks + [n] && fl'.chain == fl.chain
    ensures
      var j := |fl.blocks| / IBLEN;
      IbOf(fl', j) == IbOf(fl, j).(dba := IbOf(fl, j).dba[|fl.blocks| % IBLEN := n])
  {
    var j := |fl.blocks| / IBLEN;
    var a, b := IbOf(fl, j).dba, IbOf(fl', j).dba;
    forall i | 0 <= i < IBLEN ensures b[i] == a[|fl.blocks| % IBLEN := n][i] {
      assert a[i] == Nth(fl.blocks, IBLEN * j + i) && b[i] == Nth(fl'.blocks, IBLEN * j + i);
    }
    assert b == a[|fl.blocks| % IBLEN := n];
  }

  /** The file gets one more data block, filled with plus signs. */
  lemma NewBlock(fs: Fs, lay: Layout, i: int, f: int)
    requires Good(fs, lay, f) && Opened(fs, lay, i, f) && lay.dfree != []
    requires !fs.cbs[i].dbdirty && fs.cbs[i].inum != NULLID && fs.cbs[i].bpos == BLKSIZ
    requires lay.files[f].ci == |lay.files[f].blocks| / IBLEN
    ensures DataStart(|fs.ibs|) <= fs.dir.dfree < |fs.data| && 0 <= lay.dfree[|lay.dfree| - 1] < |lay.dplace|
    ensures |fs.cbs[i].iblock.dba| == IBLEN
    ensures
      var cb := fs.cbs[i];
      var n := fs.dir.dfree;
      var d := |lay.files[f].blocks|;
      var cb' := cb.(iblock := cb.iblock.(dba := cb.iblock.dba[d % IBLEN := n]), ibdirty := true, dnum := n, dblock :=
          Filled());
      Good(fs.(dir := fs.dir.(dfree := Signed(fs.data[n])), cbs := fs.cbs[i := cb']), TakeBlock(lay, f), f)
  {
    hide Good, OwnOnly, FileOK, Holds, IbOf;
    OpenedFile(fs, lay, i, f, f);
    NextBlock(fs, lay, f);
    var cb := fs.cbs[i];
    var fl := lay.files[f];
    var n := fs.dir.dfree;
    var d := |fl.blocks|;
    assert |fs.cbs[i].iblock.dba| == IBLEN by { IbLength(fl, fl.ci); }
    TextFits(fs.ibs, fs.data, fs.dir.files[f], cb, fl);
    NewBlockFile(fs.ibs, fs.data, fs.dir.files[f], cb, fl, n);
    var cb' := cb.(iblock := cb.iblock.(dba := cb.iblock.dba[d % IBLEN := n]), ibdirty := true, dnum := n, dblock :=
        Filled());
    AllocBlock(fs, lay, fs.(dir := fs.dir.(dfree := Signed(fs.data[n])), cbs := fs.cbs[i := cb']), i, f);
  }

  lemma IbLength(fl: File, j: int)
    ensures |IbOf(fl, j).dba| == IBLEN
  {
  }

  lemma TextFits(ibs: seq<IBlock>, data: seq<Sector>, e: Entry, cb: Cblk, fl: File)
    requires FileOK(ibs, data, e, cb, fl)
    ensures |fl.text| < 0x1_0000_0000 && |fl.text| <= BLKSIZ * |fl.blocks| && |fl.blocks| <= IBLEN * |fl.chain|
              && e.size == |fl.text| && e.ilist == Nth(fl.chain, 0)
  {
  }

  // ---------- Writing a byte ----------

  function PutCb(cb: Cblk, ch: byte): Cblk
    requires 0 <= cb.bpos < BLKSIZ
  {
    cb.(dblock := cb.dblock[cb.bpos := ch], bpos := cb.bpos + 1, pos := cb.pos + 1, dbdirty := true)
  }

  lemma PutHolds(s: Sector, text: seq<byte>, j: int, pos: int, ch: byte)
    requires 0 <= j && 0 <= pos <= |text| && Holds(s, text, j)
    ensures j != pos / BLKSIZ ==> Holds(s, PutText(text, pos, ch), j)
    ensures j == pos / BLKSIZ ==> Holds(s[pos % BLKSIZ := ch], PutText(text, pos, ch), j)
  {
    var s' := if j == pos / BLKSIZ then s[pos % BLKSIZ := ch] else s;
    var text' := PutText(text, pos, ch);
    forall k | 0 <= k < BLKSIZ ensures HoldsByte(s', text', j, k) { assert HoldsByte(s, text, j, k); }
  }

  lemma PutFile(ibs: seq<IBlock>, data: seq<Sector>, e: Entry, cb: Cblk, fl: File, ch: byte)
    requires FileOK(ibs, data, e, cb, fl) && cb.bpos < BLKSIZ && 0 <= cb.bpos && 0 <= cb.pos <= |fl.text|
              && cb.pos < 0xFFFF_FFFF
    ensures
      var text' := PutText(fl.text, cb.pos, ch);
      FileOK(ibs, data, e.(size := |text'|), PutCb(cb, ch), fl.(text := text'))
  {
    hide Holds, IbOf;
    var text' := PutText(fl.text, cb.pos, ch);
    var cb' := PutCb(cb, ch);
    var fl' := fl.(text := text');
    forall j | 0 <= j < |fl.chain| ensures IndexAt(ibs, cb', fl', j) {
      assert IndexAt(ibs, cb, fl, j);
      SameIb(fl, fl', j);
    }
    forall j | 0 <= j < |fl.blocks| ensures DataAt(data, cb', fl', j) {
      assert DataAt(data, cb, fl, j);
      if j != fl.di { PutHolds(data[fl.blocks[j]], fl.text, j, cb.pos, ch); }
    }
    PutHolds(cb.dblock, fl.text, fl.di, cb.pos, ch);
    SameIb(fl, fl', fl.ci);
  }

  lemma PutStep(fs: Fs, lay: Layout, i: int, f: int, ch: byte)
    requires Good(fs, lay, f) && Opened(fs, lay, i, f) && fs.cbs[i].bpos < BLKSIZ && fs.cbs[i].pos < 0xFFFF_FFFF
    ensures 0 <= fs.cbs[i].bpos && 0 <= fs.cbs[i].pos <= |lay.files[f].text|
    ensures
      var cb := fs.cbs[i];
      var text' := PutText(lay.files[f].text, cb.pos, ch);
      Good(fs.(dir := fs.dir.(files := fs.dir.files[f := fs.dir.files[f].(size := |text'|)]), cbs :=
          fs.cbs[i := PutCb(cb, ch)]),
           lay.(files := lay.files[f := lay.files[f].(text := text')]), f)
  {
    hide Good, OwnOnly, FileOK, Holds, IbOf;
    OpenedFile(fs, lay, i, f, f);
    var cb := fs.cbs[i];
    var fl := lay.files[f];
    var text' := PutText(fl.text, cb.pos, ch);
    PutFile(fs.ibs, fs.data, fs.dir.files[f], cb, fl, ch);
    OwnSame(lay.iplace, f, fs.ibs);
    OwnSame(lay.dplace, f, fs.data);
    SamePlaces(fs, lay, fs.(dir := fs.dir.(files := fs.dir.files[f := fs.dir.files[f].(size := |text'|)]), cbs :=
        fs.cbs[i := PutCb(cb, ch)]),
               fl.(text := text'), i, f);
  }

  // ---------- Sizes ----------

  lemma OpenHole(fs: Fs, lay: Layout, f: int)
    requires Good(fs, lay, -1) && 0 <= f < |lay.files|
    ensures Good(fs, lay, f) && Tight(lay.files[f])
  {
    hide Part, FreeOK, FileAt, OwnerOK, Tight;
    assert TightAt(lay.files, f);
  }

  lemma CloseHole(fs: Fs, lay: Layout, f: int)
    requires Good(fs, lay, f) && 0 <= f < |lay.files| && Tight(lay.files[f])
    ensures Good(fs, lay, -1)
  {
    hide Part, FreeOK, FileAt, OwnerOK, Tight;
  }

  /** Control blocks that are not in use do not matter. */
  lemma MoreUnused(fs: Fs, fs': Fs, lay: Layout)
    requires Good(fs, lay, -1) && fs.cbs == [] && fs' == fs.(cbs := fs'.cbs) && forall i :: 0 <= i < |fs'.cbs| ==>
              !fs'.cbs[i].used
    ensures Good(fs', lay, -1)
  {
    hide Part, FreeOK, TightAt, FileOK;
    forall f | 0 <= f < |lay.files| ensures FileAt(fs', lay, f) { assert FileAt(fs, lay, f); }
    forall i | 0 <= i < |fs'.cbs| ensures OwnerOK(fs', lay, i) { }
  }

  // ---------- Opening and closing ----------

  /** A control block with nothing unwritten lets go of its file. */
  lemma CloseStep(fs: Fs, lay: Layout, i: int, f: int)
    requires Good(fs, lay, f) && Opened(fs, lay, i, f) && !fs.cbs[i].ibdirty && !fs.cbs[i].dbdirty
    ensures Good(fs.(cbs := fs.cbs[i := fs.cbs[i].(used := false)]),
              lay.(files := lay.files[f := lay.files[f].(cb := -1)]), f)
  {
    hide Part, FreeOK, Holds, IbOf, Tight;
    var fl := lay.files[f];
    var fl' := fl.(cb := -1);
    var lay' := lay.(files := lay.files[f := fl']);
    var fs' := fs.(cbs := fs.cbs[i := fs.cbs[i].(used := false)]);
    assert FileAt(fs, lay, f);
    assert Chains(lay'.files) == Chains(lay.files) && Blocks(lay'.files) == Blocks(lay.files);
    IdleFile(fs.ibs, fs.data, fs.dir.files[f], fs.cbs[i], fl, fl', Idle());
    hide FileOK;
    forall g | 0 <= g < |lay'.files| ensures FileAt(fs', lay', g) { if g != f { assert FileAt(fs, lay, g); } }
    forall g | 0 <= g < |lay'.files| && g != f ensures TightAt(lay'.files, g) { assert TightAt(lay.files, g); }
    forall j | 0 <= j < |fs'.cbs| ensures OwnerOK(fs', lay', j) { assert OwnerOK(fs, lay, j); }
  }

  /** A file with nothing unwritten in memory is as well off with nothing at all in memory. */
  lemma IdleFile(ibs: seq<IBlock>, data: seq<Sector>, e: Entry, cb: Cblk, fl: File, fl': File, cb': Cblk)
    requires FileOK(ibs, data, e, cb, fl) && !cb.ibdirty && !cb.dbdirty && fl' == fl.(cb := fl'.cb)
    requires cb'.pos == 0 && cb'.inum == NULLID && cb'.dnum == NULLID && cb'.bpos == BLKSIZ && !cb'.ibdirty
              && !cb'.dbdirty
    ensures FileOK(ibs, data, e, cb', fl')
  {
    hide Holds, IbOf;
    forall j | 0 <= j < |fl.chain| ensures IndexAt(ibs, cb', fl', j) {
      assert IndexAt(ibs, cb, fl, j);
      SameIb(fl, fl', j);
    }
    forall j | 0 <= j < |fl.blocks| ensures DataAt(data, cb', fl', j) { assert DataAt(data, cb, fl, j); }
  }

  lemma NotOpen(fs: Fs, lay: Layout, f: int)
    requires Good(fs, lay, -1) && 0 <= f < |lay.files| && forall j :: 0 <= j < |fs.cbs| && fs.cbs[j].used ==>
              fs.cbs[j].file != f
    ensures lay.files[f].cb == -1
  {
    hide Part, FreeOK, FileOK, Tight;
    assert FileAt(fs, lay, f);
  }

  lemma OpenStep(fs: Fs, lay: Layout, i: int, f: int, cb': Cblk)
    requires Good(fs, lay, -1) && 0 <= i < |fs.cbs| && !fs.cbs[i].used && 0 <= f < |lay.files| && lay.files[f].cb == -1
    requires cb'.used && cb'.file == f && cb'.pos == 0 && cb'.inum == NULLID && cb'.dnum == NULLID && cb'.bpos == BLKSIZ
              && !cb'.ibdirty && !cb'.dbdirty
    ensures Good(fs.(cbs := fs.cbs[i := cb']), lay.(files := lay.files[f := lay.files[f].(cb := i)]), -1)
  {
    hide Part, FreeOK, Holds, IbOf, Tight;
    var fl := lay.files[f];
    var fl' := fl.(cb := i);
    var lay' := lay.(files := lay.files[f := fl']);
    var fs' := fs.(cbs := fs.cbs[i := cb']);
    assert FileAt(fs, lay, f);
    assert Chains(lay'.files) == Chains(lay.files) && Blocks(lay'.files) == Blocks(lay.files);
    IdleFile(fs.ibs, fs.data, fs.dir.files[f], Idle(), fl, fl', cb');
    hide FileOK;
    forall g | 0 <= g < |lay'.files| ensures FileAt(fs', lay', g) { if g != f { assert FileAt(fs, lay, g); } }
    SameTights(lay.files, lay'.files);
    forall j | 0 <= j < |fs'.cbs| ensures OwnerOK(fs', lay', j) { assert OwnerOK(fs, lay, j); }
  }

  lemma SameTights(files: seq<File>, files': seq<File>)
    requires |files'| == |files| && forall f :: 0 <= f < |files| ==> files'[f] == files[f].(cb := files'[f].cb)
    requires forall f :: 0 <= f < |files| ==> TightAt(files, f)
    ensures forall f :: 0 <= f < |files'| ==> TightAt(files', f)
  {
    forall f | 0 <= f < |files'| ensures TightAt(files', f) { assert TightAt(files, f); }
  }

  /** A new entry in the directory, for an empty file. */
  lemma EntryStep(fs: Fs, lay: Layout)
    requires Good(fs, lay, -1)
    ensures Good(fs.(dir := fs.dir.(files := fs.dir.files + [Entry(0, NULLID)])),
              lay.(files := lay.files + [File([], [], [], -1, 0, 0)]), -1)
  {
    hide PlaceOK, Tight, Holds, IbOf, FileOK;
    var fs' := fs.(dir := fs.dir.(files := fs.dir.files + [Entry(0, NULLID)]));
    var lay' := lay.(files := lay.files + [File([], [], [], -1, 0, 0)]);
    MoreParts(0, Chains(lay.files), Chains(lay'.files), lay.ifree, lay.iplace);
    MoreParts(DataStart(|fs.ibs|), Blocks(lay.files), Blocks(lay'.files), lay.dfree, lay.dplace);
    forall g | 0 <= g < |lay'.files| ensures FileAt(fs', lay', g) {
      if g < |lay.files| { assert FileAt(fs, lay, g); } else { EmptyFile(fs'.ibs, fs'.data); }
    }
    forall g | 0 <= g < |lay'.files| ensures TightAt(lay'.files, g) {
      if g < |lay.files| { assert TightAt(lay.files, g); } else { EmptyFile(fs'.ibs, fs'.data); }
    }
    forall j | 0 <= j < |fs'.cbs| ensures OwnerOK(fs', lay', j) { assert OwnerOK(fs, lay, j); }
  }

  lemma EmptyFile(ibs: seq<IBlock>, data: seq<Sector>)
    ensures FileOK(ibs, data, Entry(0, NULLID), Idle(), File([], [], [], -1, 0, 0)) && Tight(File([], [], [], -1, 0, 0))
  {
  }

  lemma MoreParts(first: int, lists: seq<seq<int>>, lists': seq<seq<int>>, free: seq<int>, place: seq<Place>)
    requires Part(first, lists, free, place) && |lists'| == |lists| + 1 && lists'[..|lists|] == lists
              && lists'[|lists|] == []
    ensures Part(first, lists', free, place)
  {
    forall f | 0 <= f < |lists| ensures lists'[f] == lists[f] { assert lists'[..|lists|][f] == lists[f]; }
    forall b | 0 <= b < |place| ensures PlaceOK(first, lists', free, place, b) {
      assert PlaceOK(first, lists, free, place, b);
    }
    forall f, j | 0 <= f < |lists'| && 0 <= j < |lists'[f]| ensures UsedAt(lists', place, f, j) {
      assert UsedAt(lists, place, f, j);
    }
  }
}
