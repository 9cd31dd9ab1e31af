/** What the blocks of the local file system mean: every index block and every data block lies in one place, a
    free list or one file, and the blocks of a file hold its bytes, up to the one index block and the one data
    block that an open file keeps in memory. */
module LfsState {
  import opened LfsDisk
  import opened Sequences

  const IDATA := 8192
  const CHAINMAX := 0x8_0000

  /** struct ldentry, without the name */
  datatype Entry = Entry(size: int, ilist: int)

  /** struct lfdir: the two free lists and the files */
  datatype Dir = Dir(dfree: int, ifree: int, files: seq<Entry>)

  /** struct lflcblk: `bpos` is the index in `dblock` that lfbyte points to, 512 when it points past the block. */
  datatype Cblk = Cblk(used: bool, file: int, pos: int, inum: int, iblock: IBlock, dnum: int, dblock: Sector,
                       bpos: int, ibdirty: bool, dbdirty: bool)

  datatype Fs = Fs(ibs: seq<IBlock>, data: seq<Sector>, dir: Dir, cbs: seq<Cblk>)

  // ---------- Where the blocks are ----------

  /** A file: its index blocks, its data blocks, its bytes, the control block it is open through, and which of
      its blocks are in memory there. */
  datatype File = File(chain: seq<int>, blocks: seq<int>, text: seq<byte>, cb: int, ci: int, di: int)

  datatype Place = Free(at: int) | Used(file: int, at: int) | Reserved

  datatype Layout = Layout(files: seq<File>, ifree: seq<int>, dfree: seq<int>, iplace: seq<Place>, dplace: seq<Place>)

  ghost predicate PlaceOK(first: int, lists: seq<seq<int>>, free: seq<int>, place: seq<Place>, b: int)
    requires 0 <= b < |place|
  {
    match place[b]
    case Free(j) => 0 <= j < |free| && free[j] == b
    case Used(f, j) => 0 <= f < |lists| && 0 <= j < |lists[f]| && lists[f][j] == b
    case Reserved => b < first
  }

  ghost predicate UsedAt(lists: seq<seq<int>>, place: seq<Place>, f: int, j: int)
    requires 0 <= f < |lists| && 0 <= j < |lists[f]|
  {
    0 <= lists[f][j] < |place| && place[lists[f][j]] == Used(f, j)
  }

  ghost predicate FreeAt(free: seq<int>, place: seq<Place>, j: int)
    requires 0 <= j < |free|
  {
    0 <= free[j] < |place| && place[free[j]] == Free(j)
  }

  /** Each block from `first` on is in exactly one place: one position of the free list or of one file's list. */
  ghost predicate Part(first: int, lists: seq<seq<int>>, free: seq<int>, place: seq<Place>) {
    && (forall b :: 0 <= b < |place| ==> PlaceOK(first, lists, free, place, b))
    && (forall f, j :: 0 <= f < |lists| && 0 <= j < |lists[f]| ==> UsedAt(lists, place, f, j))
    && (forall j :: 0 <= j < |free| ==> FreeAt(free, place, j))
    && (forall b :: 0 <= b < first && b < |place| ==> place[b] == Reserved)
  }

  function Chains(files: seq<File>): (r: seq<seq<int>>)
    ensures |r| == |files|
  {
    seq(|files|, f requires 0 <= f < |files| => files[f].chain)
  }

  function Blocks(files: seq<File>): (r: seq<seq<int>>)
    ensures |r| == |files|
  {
    seq(|files|, f requires 0 <= f < |files| => files[f].blocks)
  }

  /** The block above which position `j` of a free list lies: what its link on disk must say. */
  function Under(free: seq<int>, j: int): int
    requires 0 <= j <= |free|
  {
    if j == 0 then NULLID else free[j - 1]
  }

  ghost predicate IFreeAt(ibs: seq<IBlock>, free: seq<int>, j: int)
    requires 0 <= j < |free|
  {
    0 <= free[j] < |ibs| && ibs[free[j]].next == Under(free, j)
  }

  ghost predicate DFreeAt(data: seq<Sector>, free: seq<int>, j: int)
    requires 0 <= j < |free|
  {
    0 <= free[j] < |data| && Signed(data[free[j]]) == Under(free, j)
  }

  ghost predicate FreeOK(ibs: seq<IBlock>, data: seq<Sector>, dir: Dir, ifree: seq<int>, dfree: seq<int>) {
    && dir.ifree == Under(ifree, |ifree|) && dir.dfree == Under(dfree, |dfree|)
    && (forall j :: 0 <= j < |ifree| ==> IFreeAt(ibs, ifree, j))
    && (forall j :: 0 <= j < |dfree| ==> DFreeAt(data, dfree, j))
  }

  // ---------- A file ----------

  function Nth(s: seq<int>, i: int): int {
    if 0 <= i < |s| then s[i] else NULLID
  }

  /** What index block `j` of a file must say. */
  function IbOf(fl: File, j: int): (r: IBlock) {
    IBlock(Nth(fl.chain, j + 1), IDATA * j, seq(IBLEN, i requires 0 <= i < IBLEN => Nth(fl.blocks, IBLEN * j + i)))
  }

  ghost predicate HoldsByte(s: Sector, text: seq<byte>, j: int, k: int)
    requires 0 <= k < BLKSIZ && 0 <= j
  {
    BLKSIZ * j + k < |text| ==> s[k] == text[BLKSIZ * j + k]
  }

  /** The sector holds the bytes of the text from 512 * j on, as far as the text goes. */
  ghost predicate Holds(s: Sector, text: seq<byte>, j: int)
    requires 0 <= j
  {
    forall k :: 0 <= k < BLKSIZ ==> HoldsByte(s, text, j, k)
  }

  ghost predicate IndexAt(ibs: seq<IBlock>, cb: Cblk, fl: File, j: int)
    requires 0 <= j < |fl.chain|
  {
    0 <= fl.chain[j] < |ibs| && ((cb.ibdirty && fl.ci == j) || ibs[fl.chain[j]] == IbOf(fl, j))
  }

  ghost predicate DataAt(data: seq<Sector>, cb: Cblk, fl: File, j: int)
    requires 0 <= j < |fl.blocks|
  {
    0 <= fl.blocks[j] < |data| && ((cb.dbdirty && fl.di == j) || Holds(data[fl.blocks[j]], fl.text, j))
  }

  /** What is in memory agrees with the file, and overrides the disk where it is dirty. */
  ghost predicate CacheOK(cb: Cblk, fl: File) {
    && 0 <= cb.pos <= |fl.text| && 0 <= cb.bpos <= BLKSIZ
    && (if cb.inum == NULLID then !cb.ibdirty && cb.dnum == NULLID
        else 0 <= fl.ci < |fl.chain| && cb.inum == fl.chain[fl.ci] && cb.iblock == IbOf(fl, fl.ci))
    && (if cb.dnum == NULLID then !cb.dbdirty
        else 0 <= fl.di < |fl.blocks| && cb.dnum == fl.blocks[fl.di] && Holds(cb.dblock, fl.text, fl.di))
    && (cb.bpos < BLKSIZ ==> cb.dnum != NULLID && fl.di == cb.pos / BLKSIZ && cb.bpos == cb.pos % BLKSIZ)
  }

  ghost predicate FileOK(ibs: seq<IBlock>, data: seq<Sector>, e: Entry, cb: Cblk, fl: File) {
    && e.size == |fl.text| && e.ilist == Nth(fl.chain, 0)
    && |fl.text| < 0x1_0000_0000 && |fl.text| <= BLKSIZ * |fl.blocks| && |fl.blocks| <= IBLEN * |fl.chain|
       && |fl.chain| <= CHAINMAX
    && (forall j :: 0 <= j < |fl.chain| ==> IndexAt(ibs, cb, fl, j))
    && (forall j :: 0 <= j < |fl.blocks| ==> DataAt(data, cb, fl, j))
    && CacheOK(cb, fl)
  }

  /** A file has as many blocks as its size needs. */
  ghost predicate Tight(fl: File) {
    |fl.blocks| == (|fl.text| + BLKSIZ - 1) / BLKSIZ && |fl.chain| == (|fl.blocks| + IBLEN - 1) / IBLEN
  }

  // ---------- The whole file system ----------

  /** The state of a control block that holds nothing in memory. */
  function Idle(): Cblk {
    Cblk(false, 0, 0, NULLID, IBlock(NULLID, 0, seq(IBLEN, _ => NULLID)), NULLID, seq(BLKSIZ, _ => 0), BLKSIZ, false,
        false)
  }

  function CbOf(cbs: seq<Cblk>, fl: File): Cblk {
    if 0 <= fl.cb < |cbs| then cbs[fl.cb] else Idle()
  }

  ghost predicate FileAt(fs: Fs, lay: Layout, f: int)
    requires 0 <= f < |lay.files| && |fs.dir.files| == |lay.files|
  {
    && FileOK(fs.ibs, fs.data, fs.dir.files[f], CbOf(fs.cbs, lay.files[f]), lay.files[f])
    && (lay.files[f].cb == -1 || (0 <= lay.files[f].cb < |fs.cbs| && fs.cbs[lay.files[f].cb].used
       && fs.cbs[lay.files[f].cb].file == f))
  }

  ghost predicate OwnerOK(fs: Fs, lay: Layout, i: int)
    requires 0 <= i < |fs.cbs|
  {
    fs.cbs[i].used ==> 0 <= fs.cbs[i].file < |lay.files| && lay.files[fs.cbs[i].file].cb == i
  }

  ghost predicate TightAt(files: seq<File>, f: int)
    requires 0 <= f < |files|
  {
    Tight(files[f])
  }

  /** The disk, the directory and the control blocks are laid out as `lay` says; file `hole` may have more
      blocks than its size needs. */
  ghost predicate Good(fs: Fs, lay: Layout, hole: int) {
    && Sized(fs, lay)
    && Part(0, Chains(lay.files), lay.ifree, lay.iplace)
    && Part(DataStart(|fs.ibs|), Blocks(lay.files), lay.dfree, lay.dplace)
    && FreeOK(fs.ibs, fs.data, fs.dir, lay.ifree, lay.dfree)
    && (forall f :: 0 <= f < |lay.files| ==> FileAt(fs, lay, f))
    && (forall f :: 0 <= f < |lay.files| && f != hole ==> TightAt(lay.files, f))
    && (forall i :: 0 <= i < |fs.cbs| ==> OwnerOK(fs, lay, i))
  }

  ghost predicate Sized(fs: Fs, lay: Layout) {
    && |lay.files| == |fs.dir.files| && |lay.iplace| == |fs.ibs| && |lay.dplace| == |fs.data|
    && |fs.ibs| < 0x8000_0000 && |fs.data| < 0x8000_0000
  }

  // ---------- Lemmas about places ----------

  /** Taking the top of the free list to the end of the list of file `f`. */
  function TakePlace(lists: seq<seq<int>>, free: seq<int>, place: seq<Place>, f: int): seq<Place>
    requires 0 <= f < |lists| && free != [] && 0 <= free[|free| - 1] < |place|
  {
    place[free[|free| - 1] := Used(f, |lists[f]|)]
  }

  lemma TakePart(first: int, lists: seq<seq<int>>, free: seq<int>, place: seq<Place>, f: int)
    requires Part(first, lists, free, place) && 0 <= f < |lists| && free != []
    ensures 0 <= free[|free| - 1] < |place| && first <= free[|free| - 1]
    ensures
      var n := |free| - 1;
      Part(first, lists[f := lists[f] + [free[n]]], free[..n], TakePlace(lists, free, place, f))
  {
    var n := |free| - 1;
    assert FreeAt(free, place, n);
    var b := free[n];
    var lists' := lists[f := lists[f] + [b]];
    var place' := TakePlace(lists, free, place, f);
    forall c | 0 <= c < |place'| ensures PlaceOK(first, lists', free[..n], place', c) {
      assert PlaceOK(first, lists, free, place, c);
    }
    forall g, j | 0 <= g < |lists'| && 0 <= j < |lists'[g]| ensures UsedAt(lists', place', g, j) {
      if g != f || j < |lists[f]| { assert UsedAt(lists, place, g, j); }
    }
    forall j | 0 <= j < n ensures FreeAt(free[..n], place', j) { assert FreeAt(free, place, j); }
  }

  function Reversed(l: seq<int>): seq<int> {
    seq(|l|, j requires 0 <= j < |l| => l[|l| - 1 - j])
  }

  /** The place of each block once the list of file `f` is put on top of the free list, in order or reversed. */
  function GivePlace(n: int, at: int, place: seq<Place>, f: int, rev: bool): (r: seq<Place>)
    ensures |r| == |place|
  {
    seq(|place|, b requires 0 <= b < |place| =>
      if place[b].Used? && place[b].file == f then Free(at + if rev then n - 1 - place[b].at else place[b].at)
          else place[b])
  }

  lemma GivePart(first: int, lists: seq<seq<int>>, free: seq<int>, place: seq<Place>, f: int, rev: bool)
    requires Part(first, lists, free, place) && 0 <= f < |lists|
    ensures
      var back := if rev then Reversed(lists[f]) else lists[f];
      Part(first, lists[f := []], free + back, GivePlace(|lists[f]|, |free|, place, f, rev))
  {
    var back := if rev then Reversed(lists[f]) else lists[f];
    var lists' := lists[f := []];
    var free' := free + back;
    var place' := GivePlace(|lists[f]|, |free|, place, f, rev);
    forall c | 0 <= c < |place'| ensures PlaceOK(first, lists', free', place', c) {
      assert PlaceOK(first, lists, free, place, c);
    }
    forall g, j | 0 <= g < |lists'| && 0 <= j < |lists'[g]| ensures UsedAt(lists', place', g, j) {
      assert UsedAt(lists, place, g, j);
    }
    forall j | 0 <= j < |free'| ensures FreeAt(free', place', j) {
      if j < |free| {
        assert FreeAt(free, place, j);
      } else {
        var i := if rev then |lists[f]| - 1 - (j - |free|) else j - |free|;
        assert UsedAt(lists, place, f, i);
      }
    }
  }

  lemma PartNoDup(first: int, lists: seq<seq<int>>, free: seq<int>, place: seq<Place>, f: int)
    requires Part(first, lists, free, place) && 0 <= f < |lists|
    ensures NoDup(lists[f]) && NoDup(free)
  {
    forall i, j | 0 <= i < j < |lists[f]| ensures Differ(lists[f], i, j) {
      assert UsedAt(lists, place, f, i) && UsedAt(lists, place, f, j);
    }
    forall i, j | 0 <= i < j < |free| ensures Differ(free, i, j) {
      assert FreeAt(free, place, i) && FreeAt(free, place, j);
    }
  }

  // ---------- What a change to one file leaves alone ----------

  /** Nothing that belongs to another file than `f` changed. */
  ghost predicate KeepsOthers<T(!new)>(place: seq<Place>, f: int, s: seq<T>, s': seq<T>) {
    |s'| == |s| && |place| == |s| && forall b :: 0 <= b < |s| ==> KeptAt(place, f, s, s', b)
  }

  ghost predicate KeptAt<T(!new)>(place: seq<Place>, f: int, s: seq<T>, s': seq<T>, b: int)
    requires 0 <= b < |s| && |s'| == |s| && |place| == |s|
  {
    place[b].Used? && place[b].file != f ==> s'[b] == s[b]
  }

  /** Only the entry, the control block, and the place in memory of file `f` changed. */
  ghost predicate OnlyFile(fs: Fs, lay: Layout, fs': Fs, lay': Layout, f: int) {
    && 0 <= f < |lay.files| && |fs'.dir.files| == |fs.dir.files| == |lay.files|
    && fs'.dir.files == fs.dir.files[f := fs'.dir.files[f]]
    && |lay'.files| == |lay.files| && lay'.files == lay.files[f := lay'.files[f]]
    && lay'.files[f].cb == lay.files[f].cb
    && 0 <= lay.files[f].cb < |fs.cbs| == |fs'.cbs|
    && fs'.cbs == fs.cbs[lay.files[f].cb := fs'.cbs[lay.files[f].cb]]
    && fs'.cbs[lay.files[f].cb].used && fs'.cbs[lay.files[f].cb].file == f
  }

  lemma FileFrame(ibs: seq<IBlock>, ibs': seq<IBlock>, data: seq<Sector>, data': seq<Sector>, e: Entry, cb: Cblk,
                  fl: File)
    requires FileOK(ibs, data, e, cb, fl) && |ibs'| == |ibs| && |data'| == |data|
    requires forall j :: 0 <= j < |fl.chain| && 0 <= fl.chain[j] < |ibs| ==> ibs'[fl.chain[j]] == ibs[fl.chain[j]]
    requires forall j :: 0 <= j < |fl.blocks| && 0 <= fl.blocks[j] < |data| ==>
              data'[fl.blocks[j]] == data[fl.blocks[j]]
    ensures FileOK(ibs', data', e, cb, fl)
  {
    hide IbOf, Holds, CacheOK;
    forall j | 0 <= j < |fl.chain| ensures IndexAt(ibs', cb, fl, j) { assert IndexAt(ibs, cb, fl, j); }
    forall j | 0 <= j < |fl.blocks| ensures DataAt(data', cb, fl, j) { assert DataAt(data, cb, fl, j); }
  }

  /** The other files are as they were. */
  lemma OthersGood(fs: Fs, lay: Layout, fs': Fs, lay': Layout, f: int, hole: int)
    requires Good(fs, lay, hole) && OnlyFile(fs, lay, fs', lay', f)
    requires KeepsOthers(lay.iplace, f, fs.ibs, fs'.ibs) && KeepsOthers(lay.dplace, f, fs.data, fs'.data)
    ensures forall g :: 0 <= g < |lay'.files| && g != f ==> FileAt(fs', lay', g)
    ensures forall i :: 0 <= i < |fs'.cbs| ==> OwnerOK(fs', lay', i)
    ensures forall g :: 0 <= g < |lay'.files| && g != f && g != hole ==> TightAt(lay'.files, g)
  {
    hide FileOK, Tight, FreeOK, PlaceOK;
    forall g | 0 <= g < |lay'.files| && g != f ensures FileAt(fs', lay', g) {
      var fl := lay.files[g];
      assert FileAt(fs, lay, g) && FileAt(fs, lay, f);
      var i := lay.files[f].cb;
      assert fl.cb != i;
      assert CbOf(fs'.cbs, fl) == CbOf(fs.cbs, fl);
      forall j | 0 <= j < |fl.chain| && 0 <= fl.chain[j] < |fs.ibs|
        ensures fs'.ibs[fl.chain[j]] == fs.ibs[fl.chain[j]]
      {
        assert UsedAt(Chains(lay.files), lay.iplace, g, j);
        assert KeptAt(lay.iplace, f, fs.ibs, fs'.ibs, fl.chain[j]);
      }
      forall j | 0 <= j < |fl.blocks| && 0 <= fl.blocks[j] < |fs.data|
        ensures fs'.data[fl.blocks[j]] == fs.data[fl.blocks[j]]
      {
        assert UsedAt(Blocks(lay.files), lay.dplace, g, j);
        assert KeptAt(lay.dplace, f, fs.data, fs'.data, fl.blocks[j]);
      }
      FileFrame(fs.ibs, fs'.ibs, fs.data, fs'.data, fs.dir.files[g], CbOf(fs.cbs, fl), fl);
    }
    forall i | 0 <= i < |fs'.cbs| ensures OwnerOK(fs', lay', i) {
      assert OwnerOK(fs, lay, i);
      if fs'.cbs[i].used && 0 <= fs'.cbs[i].file < |lay.files| { assert FileAt(fs, lay, fs'.cbs[i].file); }
    }
    forall g | 0 <= g < |lay'.files| && g != f && g != hole ensures TightAt(lay'.files, g) {
      assert TightAt(lay.files, g);
    }
  }

  /** The change is good when file `f`, the places and the free lists are. */
  lemma GoodAgain(fs: Fs, lay: Layout, fs': Fs, lay': Layout, f: int)
    requires Good(fs, lay, f) && OnlyFile(fs, lay, fs', lay', f) && Sized(fs', lay')
    requires KeepsOthers(lay.iplace, f, fs.ibs, fs'.ibs) && KeepsOthers(lay.dplace, f, fs.data, fs'.data)
    requires Part(0, Chains(lay'.files), lay'.ifree, lay'.iplace)
    requires Part(DataStart(|fs'.ibs|), Blocks(lay'.files), lay'.dfree, lay'.dplace)
    requires FreeOK(fs'.ibs, fs'.data, fs'.dir, lay'.ifree, lay'.dfree)
    requires FileAt(fs', lay', f)
    ensures Good(fs', lay', f)
  {
    hide Part, FreeOK, FileOK, Tight, OwnerOK, OnlyFile, KeepsOthers;
    OthersGood(fs, lay, fs', lay', f, f);
    assert |lay'.files| == |lay.files| by { SameFiles(fs, lay, fs', lay', f); }
  }

  lemma SameFiles(fs: Fs, lay: Layout, fs': Fs, lay': Layout, f: int)
    requires OnlyFile(fs, lay, fs', lay', f)
    ensures |lay'.files| == |lay.files|
  {
  }
}
