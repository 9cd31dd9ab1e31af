/** What freeing the blocks of a file does to the disk, and why the file system is well laid out afterwards. */
module LfsTruncate {
  import opened LfsDisk
  import opened LfsSpec
  import opened LfsState
  import opened LfsSteps

  /** Index block `j` of a file once lftruncate has been over it; `top` is the old top of the free list. */
  function ClearedIb(fl: File, j: int, top: int): IBlock
    requires 0 <= j < |fl.chain|
  {
    IBlock(if j + 1 < |fl.chain| then fl.chain[j + 1] else top, 0, seq(IBLEN, _ => NULLID))
  }

  ghost predicate ClearedAt(ibs0: seq<IBlock>, ibs: seq<IBlock>, place: seq<Place>, fl: File, f: int, top: int, k: int,
                            b: int)
    requires 0 <= b < |ibs0| == |ibs| == |place|
  {
    if place[b].Used? && place[b].file == f && 0 <= place[b].at < k && place[b].at < |fl.chain|
    then ibs[b] == ClearedIb(fl, place[b].at, top)
    else ibs[b] == ibs0[b]
  }

  /** The first `k` index blocks of the file are cleared, and nothing else has changed. */
  ghost predicate Cleared(ibs0: seq<IBlock>, ibs: seq<IBlock>, place: seq<Place>, fl: File, f: int, top: int, k: int) {
    |ibs0| == |ibs| == |place| && forall b :: 0 <= b < |ibs| ==> ClearedAt(ibs0, ibs, place, fl, f, top, k, b)
  }

  ghost predicate FreedAt(data0: seq<Sector>, data: seq<Sector>, place: seq<Place>, fl: File, f: int, dfree: seq<int>,
                          m: int, b: int)
    requires 0 <= b < |data0| == |data| == |place|
  {
    if place[b].Used? && place[b].file == f && 0 <= place[b].at < m && place[b].at < |fl.blocks|
    then Signed(data[b]) == Under(dfree + fl.blocks, |dfree| + place[b].at)
    else data[b] == data0[b]
  }

  /** The first `m` data blocks of the file are linked on top of the free list, and nothing else has changed. */
  ghost predicate Freed(data0: seq<Sector>, data: seq<Sector>, place: seq<Place>, fl: File, f: int, dfree: seq<int>,
                        m: int) {
    |data0| == |data| == |place| && forall b :: 0 <= b < |data| ==> FreedAt(data0, data, place, fl, f, dfree, m, b)
  }

  lemma ClearMore(fs: Fs, lay: Layout, ibs: seq<IBlock>, f: int, top: int, k: int)
    requires Good(fs, lay, f) && 0 <= f < |lay.files| && 0 <= k < |lay.files[f].chain|
    requires Cleared(fs.ibs, ibs, lay.iplace, lay.files[f], f, top, k)
    ensures 0 <= lay.files[f].chain[k] < |ibs| == |fs.ibs|
              && ibs[lay.files[f].chain[k]] == fs.ibs[lay.files[f].chain[k]]
    ensures Cleared(fs.ibs, ibs[lay.files[f].chain[k] := ClearedIb(lay.files[f], k, top)], lay.iplace, lay.files[f], f,
              top, k + 1)
  {
    hide FreeOK, FileAt, TightAt, OwnerOK;
    var fl := lay.files[f];
    assert UsedAt(Chains(lay.files), lay.iplace, f, k);
    var c := fl.chain[k];
    assert ClearedAt(fs.ibs, ibs, lay.iplace, fl, f, top, k, c);
    var ibs' := ibs[c := ClearedIb(fl, k, top)];
    var k' := k + 1;
    forall b | 0 <= b < |ibs'| ensures ClearedAt(fs.ibs, ibs', lay.iplace, fl, f, top, k', b) {
      assert ClearedAt(fs.ibs, ibs, lay.iplace, fl, f, top, k, b);
      assert PlaceOK(0, Chains(lay.files), lay.ifree, lay.iplace, b);
    }
  }

  lemma FreeMore(fs: Fs, lay: Layout, data: seq<Sector>, data': seq<Sector>, f: int, m: int)
    requires Good(fs, lay, f) && 0 <= f < |lay.files| && 0 <= m < |lay.files[f].blocks|
    requires Freed(fs.data, data, lay.dplace, lay.files[f], f, lay.dfree, m)
    requires |data'| == |data| && 0 <= lay.files[f].blocks[m] < |data|
              && data' == data[lay.files[f].blocks[m] := data'[lay.files[f].blocks[m]]]
    requires Signed(data'[lay.files[f].blocks[m]]) == Under(lay.dfree + lay.files[f].blocks, |lay.dfree| + m)
    ensures Freed(fs.data, data', lay.dplace, lay.files[f], f, lay.dfree, m + 1)
  {
    hide FreeOK, FileAt, TightAt, OwnerOK, Signed;
    var fl := lay.files[f];
    assert UsedAt(Blocks(lay.files), lay.dplace, f, m);
    var m' := m + 1;
    forall b | 0 <= b < |data'| ensures FreedAt(fs.data, data', lay.dplace, fl, f, lay.dfree, m', b) {
      assert FreedAt(fs.data, data, lay.dplace, fl, f, lay.dfree, m, b);
      assert PlaceOK(DataStart(|fs.ibs|), Blocks(lay.files), lay.dfree, lay.dplace, b);
    }
  }

  lemma NothingCleared(fs: Fs, lay: Layout, f: int, top: int)
    requires Good(fs, lay, f) && 0 <= f < |lay.files|
    ensures Cleared(fs.ibs, fs.ibs, lay.iplace, lay.files[f], f, top, 0)
    ensures Freed(fs.data, fs.data, lay.dplace, lay.files[f], f, lay.dfree, 0)
  {
    hide Part, FreeOK, FileAt, TightAt, OwnerOK, Signed;
    forall b | 0 <= b < |fs.ibs| ensures ClearedAt(fs.ibs, fs.ibs, lay.iplace, lay.files[f], f, top, 0, b) { }
    forall b | 0 <= b < |fs.data| ensures FreedAt(fs.data, fs.data, lay.dplace, lay.files[f], f, lay.dfree, 0, b) { }
  }

  /** The layout without the blocks of file `f`. */
  function Emptied(lay: Layout, f: int): Layout
    requires 0 <= f < |lay.files|
  {
    var fl := lay.files[f];
    Layout(lay.files[f := File([], [], [], fl.cb, 0, 0)], lay.ifree + Reversed(fl.chain), lay.dfree + fl.blocks,
           GivePlace(|fl.chain|, |lay.ifree|, lay.iplace, f, true),
               GivePlace(|fl.blocks|, |lay.dfree|, lay.dplace, f, false))
  }

  lemma EmptiedFree(fs: Fs, lay: Layout, ibs: seq<IBlock>, data: seq<Sector>, f: int)
    requires Good(fs, lay, f) && 0 <= f < |lay.files|
    requires Cleared(fs.ibs, ibs, lay.iplace, lay.files[f], f, fs.dir.ifree, |lay.files[f].chain|)
    requires Freed(fs.data, data, lay.dplace, lay.files[f], f, lay.dfree, |lay.files[f].blocks|)
    ensures forall j :: 0 <= j < |Emptied(lay, f).ifree| ==> IFreeAt(ibs, Emptied(lay, f).ifree, j)
    ensures forall j :: 0 <= j < |Emptied(lay, f).dfree| ==> DFreeAt(data, Emptied(lay, f).dfree, j)
  {
    hide FileAt, TightAt, OwnerOK, Signed, PlaceOK;
    var fl := lay.files[f];
    var lay' := Emptied(lay, f);
    forall j | 0 <= j < |lay'.ifree| ensures IFreeAt(ibs, lay'.ifree, j) {
      if j < |lay.ifree| {
        assert IFreeAt(fs.ibs, lay.ifree, j) && FreeAt(lay.ifree, lay.iplace, j);
        assert ClearedAt(fs.ibs, ibs, lay.iplace, fl, f, fs.dir.ifree, |fl.chain|, lay.ifree[j]);
      } else {
        var c := |fl.chain| - 1 - (j - |lay.ifree|);
        assert lay'.ifree[j] == fl.chain[c];
        assert UsedAt(Chains(lay.files), lay.iplace, f, c);
        assert ClearedAt(fs.ibs, ibs, lay.iplace, fl, f, fs.dir.ifree, |fl.chain|, fl.chain[c]);
      }
    }
    forall j | 0 <= j < |lay'.dfree| ensures DFreeAt(data, lay'.dfree, j) {
      if j < |lay.dfree| {
        assert DFreeAt(fs.data, lay.dfree, j) && FreeAt(lay.dfree, lay.dplace, j);
        assert FreedAt(fs.data, data, lay.dplace, fl, f, lay.dfree, |fl.blocks|, lay.dfree[j]);
      } else {
        var d := j - |lay.dfree|;
        assert lay'.dfree[j] == fl.blocks[d];
        assert UsedAt(Blocks(lay.files), lay.dplace, f, d);
        assert FreedAt(fs.data, data, lay.dplace, fl, f, lay.dfree, |fl.blocks|, fl.blocks[d]);
      }
    }
  }

  lemma EmptiedOthers(fs: Fs, lay: Layout, ibs: seq<IBlock>, data: seq<Sector>, f: int)
    requires 0 <= f < |lay.files| && Sized(fs, lay)
    requires Cleared(fs.ibs, ibs, lay.iplace, lay.files[f], f, fs.dir.ifree, |lay.files[f].chain|)
    requires Freed(fs.data, data, lay.dplace, lay.files[f], f, lay.dfree, |lay.files[f].blocks|)
    ensures KeepsOthers(lay.iplace, f, fs.ibs, ibs) && KeepsOthers(lay.dplace, f, fs.data, data)
  {
    hide Signed;
    forall b | 0 <= b < |ibs| ensures KeptAt(lay.iplace, f, fs.ibs, ibs, b) {
      assert ClearedAt(fs.ibs, ibs, lay.iplace, lay.files[f], f, fs.dir.ifree, |lay.files[f].chain|, b);
    }
    forall b | 0 <= b < |data| ensures KeptAt(lay.dplace, f, fs.data, data, b) {
      assert FreedAt(fs.data, data, lay.dplace, lay.files[f], f, lay.dfree, |lay.files[f].blocks|, b);
    }
  }

  /** Once all blocks are freed, the file is empty and everything it had is on the free lists. */
  lemma TruncGood(fs: Fs, lay: Layout, fs': Fs, i: int, f: int)
    requires Good(fs, lay, f) && Opened(fs, lay, i, f) && lay.files[f].chain != []
    requires Cleared(fs.ibs, fs'.ibs, lay.iplace, lay.files[f], f, fs.dir.ifree, |lay.files[f].chain|)
    requires Freed(fs.data, fs'.data, lay.dplace, lay.files[f], f, lay.dfree, |lay.files[f].blocks|)
    requires fs'.cbs == fs.cbs
              && fs.cbs[i] == fs.cbs[i].(pos := 0, inum := NULLID, dnum := NULLID, bpos := BLKSIZ, ibdirty :=
              false, dbdirty := false)
    requires fs'.dir == Dir(Under(lay.dfree + lay.files[f].blocks, |lay.dfree| + |lay.files[f].blocks|),
              lay.files[f].chain[0],
                            fs.dir.files[f := Entry(0, NULLID)])
    ensures Good(fs', Emptied(lay, f), -1)
  {
    hide Part, FreeOK, FileOK, Cleared, Freed, Tight, KeepsOthers, OwnerOK, TightAt;
    var fl := lay.files[f];
    var lay' := Emptied(lay, f);
    EmptiedOthers(fs, lay, fs'.ibs, fs'.data, f);
    ClearedLengths(fs.ibs, fs'.ibs, lay.iplace, fl, f, fs.dir.ifree, |fl.chain|);
    FreedLengths(fs.data, fs'.data, lay.dplace, fl, f, lay.dfree, |fl.blocks|);
    EmptiedParts(fs, lay, f);
    EmptiedFreeOK(fs, lay, fs', f);
    EmptyOK(fs'.ibs, fs'.data, fs.cbs[i], lay'.files[f]);
    GoodAgain(fs, lay, fs', lay', f);
    CloseHole(fs', lay', f);
  }

  lemma EmptiedParts(fs: Fs, lay: Layout, f: int)
    requires Good(fs, lay, f) && 0 <= f < |lay.files|
    ensures
      var lay' := Emptied(lay, f);
      && Part(0, Chains(lay'.files), lay'.ifree, lay'.iplace)
      && Part(DataStart(|fs.ibs|), Blocks(lay'.files), lay'.dfree, lay'.dplace)
  {
    hide Part, FreeOK, FileAt, OwnerOK, TightAt, GivePlace;
    var lay' := Emptied(lay, f);
    GivePart(0, Chains(lay.files), lay.ifree, lay.iplace, f, true);
    GivePart(DataStart(|fs.ibs|), Blocks(lay.files), lay.dfree, lay.dplace, f, false);
    assert Chains(lay'.files) == Chains(lay.files)[f := []];
    assert Blocks(lay'.files) == Blocks(lay.files)[f := []];
  }

  lemma EmptiedFreeOK(fs: Fs, lay: Layout, fs': Fs, f: int)
    requires Good(fs, lay, f) && 0 <= f < |lay.files| && lay.files[f].chain != []
    requires Cleared(fs.ibs, fs'.ibs, lay.iplace, lay.files[f], f, fs.dir.ifree, |lay.files[f].chain|)
    requires Freed(fs.data, fs'.data, lay.dplace, lay.files[f], f, lay.dfree, |lay.files[f].blocks|)
    requires fs'.dir.dfree == Under(lay.dfree + lay.files[f].blocks, |lay.dfree| + |lay.files[f].blocks|)
    requires fs'.dir.ifree == lay.files[f].chain[0]
    ensures FreeOK(fs'.ibs, fs'.data, fs'.dir, Emptied(lay, f).ifree, Emptied(lay, f).dfree)
  {
    hide Good, Cleared, Freed, GivePlace, IFreeAt, DFreeAt;
    EmptiedFree(fs, lay, fs'.ibs, fs'.data, f);
  }

  lemma EmptyOK(ibs: seq<IBlock>, data: seq<Sector>, cb: Cblk, fl: File)
    requires fl.chain == [] && fl.blocks == [] && fl.text == []
    requires cb == cb.(pos := 0, inum := NULLID, dnum := NULLID, bpos := BLKSIZ, ibdirty := false, dbdirty := false)
    ensures FileOK(ibs, data, Entry(0, NULLID), cb, fl) && Tight(fl)
  {
  }

  lemma ClearedLengths(ibs0: seq<IBlock>, ibs: seq<IBlock>, place: seq<Place>, fl: File, f: int, top: int, k: int)
    requires Cleared(ibs0, ibs, place, fl, f, top, k)
    ensures |ibs0| == |ibs|
  {
  }

  lemma FreedLengths(data0: seq<Sector>, data: seq<Sector>, place: seq<Place>, fl: File, f: int, dfree: seq<int>,
                     m: int)
    requires Freed(data0, data, place, fl, f, dfree, m)
    ensures |data0| == |data|
  {
  }

  /** No index block of a file is on top of the free list. */
  lemma ChainNotTop(fs: Fs, lay: Layout, f: int, k: int)
    requires Good(fs, lay, f) && 0 <= f < |lay.files| && 0 <= k < |lay.files[f].chain|
    ensures lay.files[f].chain[k] != fs.dir.ifree
  {
    hide FileAt, TightAt, OwnerOK, PlaceOK;
    assert UsedAt(Chains(lay.files), lay.iplace, f, k);
    if lay.ifree != [] { assert FreeAt(lay.ifree, lay.iplace, |lay.ifree| - 1); }
  }

  /** A file whose control block holds nothing unwritten, with the control block reset. */
  lemma ResetStep(fs: Fs, lay: Layout, i: int, f: int)
    requires Good(fs, lay, f) && Opened(fs, lay, i, f) && !fs.cbs[i].ibdirty && !fs.cbs[i].dbdirty
    ensures Good(fs.(cbs := fs.cbs[i := fs.cbs[i].(pos := 0, inum := NULLID, dnum := NULLID, bpos := BLKSIZ)]), lay, f)
  {
    hide Good, Holds, IbOf;
    OpenedFile(fs, lay, i, f, f);
    CacheStep(fs, lay, i, f, fs.cbs[i].(pos := 0, inum := NULLID, dnum := NULLID, bpos := BLKSIZ), lay.files[f]);
    assert lay.(files := lay.files[f := lay.files[f]]) == lay;
  }

  /** The index block found on the way along the chain is the one of the file. */
  lemma ChainBlock(fs: Fs, lay: Layout, i: int, f: int, k: int)
    requires Good(fs, lay, f) && Opened(fs, lay, i, f) && !fs.cbs[i].ibdirty && 0 <= k < |lay.files[f].chain|
    ensures 0 <= lay.files[f].chain[k] < |fs.ibs| && fs.ibs[lay.files[f].chain[k]] == IbOf(lay.files[f], k)
  {
    hide Good, Holds, IbOf;
    OpenedFile(fs, lay, i, f, f);
    assert IndexAt(fs.ibs, fs.cbs[i], lay.files[f], k);
  }

  lemma SpareNth(fl: File, k: int, j: int)
    requires 0 <= k && 0 <= j < IBLEN
    ensures |IbOf(fl, k).dba| == IBLEN && IbOf(fl, k).dba[j] == Nth(fl.blocks, IBLEN * k + j)
  {
  }

  /** Data block numbers fit a link, and lie in the data area. */
  lemma BlockInArea(fs: Fs, lay: Layout, f: int, m: int)
    requires Good(fs, lay, f) && 0 <= f < |lay.files| && 0 <= m < |lay.files[f].blocks|
    ensures DataStart(|fs.ibs|) <= lay.files[f].blocks[m] < |fs.data| && 0 <= lay.files[f].blocks[m]
    ensures Int32(Under(lay.dfree + lay.files[f].blocks, |lay.dfree| + m))
  {
    hide FreeOK, FileAt, TightAt, OwnerOK;
    GoodPlaces(fs, lay, f, f);
    assert BlockUsed(fs, lay, f, m);
    if m > 0 {
      assert BlockUsed(fs, lay, f, m - 1);
    } else if lay.dfree != [] {
      assert FreeAt(lay.dfree, lay.dplace, |lay.dfree| - 1);
    }
  }
}
