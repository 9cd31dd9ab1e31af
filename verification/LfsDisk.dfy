/** The disk of the local file system: 512-byte sectors, of which the first holds the directory, the next ones
    index blocks of 72 bytes, seven to a sector, and the rest data blocks (include/lfilesys.h). */
module LfsDisk {

  const BLKSIZ := 512
  const IBLEN := 16
  const IBSIZE := 72
  const NULLID := -1

  type byte = x: int | 0 <= x < 256

  type Sector = s: seq<byte> | |s| == BLKSIZ witness seq(BLKSIZ, _ => 0)

  /** struct lfiblk */
  datatype IBlock = IBlock(next: int, offset: int, dba: seq<int>)

  predicate Int32(v: int) {
    -0x8000_0000 <= v < 0x8000_0000
  }

  predicate GoodIb(ib: IBlock) {
    && Int32(ib.next) && 0 <= ib.offset < 0x1_0000_0000
    && |ib.dba| == IBLEN && forall i :: 0 <= i < IBLEN ==> Int32(ib.dba[i])
  }

  // ---------- Bytes in memory order ----------

  /** A 32-bit number, negative ones in two's complement, low byte first. */
  function Encode32(v: int): (r: seq<byte>)
    ensures |r| == 4
  {
    var u := v % 0x1_0000_0000;
    var a := u / 256;
    var b := a / 256;
    [u % 256, a % 256, b % 256, b / 256]
  }

  function Unsigned(b: seq<byte>): int
    requires |b| >= 4
  {
    b[0] as int + 256 * (b[1] as int) + 65536 * (b[2] as int) + 16777216 * (b[3] as int)
  }

  function Signed(b: seq<byte>): int
    requires |b| >= 4
  {
    var u := Unsigned(b);
    if u < 0x8000_0000 then u else u - 0x1_0000_0000
  }

  lemma SignedStart(b: seq<byte>)
    requires |b| >= 4
    ensures Signed(b) == Signed(b[..4])
  {
  }

  lemma EncodeUnsigned(v: int)
    requires 0 <= v < 0x1_0000_0000
    ensures Unsigned(Encode32(v)) == v
  {
  }

  lemma EncodeSigned(v: int)
    requires Int32(v)
    ensures Signed(Encode32(v)) == v
  {
    var u := if v < 0 then v + 0x1_0000_0000 else v;
    assert v % 0x1_0000_0000 == u;
    hide Unsigned;
    EncodeUnsigned(u);
  }

  function EncodeAll(vs: seq<int>): (r: seq<byte>)
    ensures |r| == 4 * |vs|
  {
    if vs == [] then [] else Encode32(vs[0]) + EncodeAll(vs[1..])
  }

  function DecodeAll(b: seq<byte>, n: nat): (r: seq<int>)
    requires |b| >= 4 * n
    ensures |r| == n
  {
    if n == 0 then [] else [Signed(b[..4])] + DecodeAll(b[4..], n - 1)
  }

  lemma {:induction false} DecodeEncodeAll(vs: seq<int>)
    requires forall i :: 0 <= i < |vs| ==> Int32(vs[i])
    ensures DecodeAll(EncodeAll(vs), |vs|) == vs
  {
    if vs != [] {
      DecodeEncodeAll(vs[1..]);
      EncodeSigned(vs[0]);
      assert EncodeAll(vs)[..4] == Encode32(vs[0]);
      assert EncodeAll(vs)[4..] == EncodeAll(vs[1..]);
    }
  }

  function EncodeIb(ib: IBlock): (r: seq<byte>)
    requires |ib.dba| == IBLEN
    ensures |r| == IBSIZE
  {
    Encode32(ib.next) + Encode32(ib.offset) + EncodeAll(ib.dba)
  }

  function DecodeIb(b: seq<byte>): (r: IBlock)
    requires |b| == IBSIZE
    ensures |r.dba| == IBLEN
  {
    IBlock(Signed(b[..4]), Unsigned(b[4..8]), DecodeAll(b[8..], IBLEN))
  }

  /** An index block survives being laid out in bytes and read back. */
  lemma DecodeEncodeIb(ib: IBlock)
    requires GoodIb(ib)
    ensures DecodeIb(EncodeIb(ib)) == ib
  {
    var b := EncodeIb(ib);
    assert b[..4] == Encode32(ib.next);
    assert b[4..8] == Encode32(ib.offset);
    assert b[8..] == EncodeAll(ib.dba);
    EncodeSigned(ib.next);
    EncodeUnsigned(ib.offset);
    DecodeEncodeAll(ib.dba);
  }

  // ---------- Index blocks in sectors ----------

  function Ib2Sect(ib: int): int {
    ib / 7 + 1
  }

  function Ib2Disp(ib: int): (r: int)
    ensures 0 <= r && r + IBSIZE <= BLKSIZ
  {
    (ib % 7) * IBSIZE
  }

  /** Different index blocks lie in different sectors or do not overlap. */
  lemma ApartInSector(a: int, b: int)
    requires a != b && Ib2Sect(a) == Ib2Sect(b)
    ensures Ib2Disp(a) + IBSIZE <= Ib2Disp(b) || Ib2Disp(b) + IBSIZE <= Ib2Disp(a)
  {
  }

  function Splice(s: Sector, at: int, b: seq<byte>): Sector
    requires 0 <= at && at + |b| <= BLKSIZ
  {
    s[..at] + b + s[at + |b|..]
  }

  lemma SpliceSelf(s: Sector, at: int, b: seq<byte>)
    requires 0 <= at && at + |b| <= BLKSIZ
    ensures Splice(s, at, b)[at..at + |b|] == b
  {
  }

  lemma SpliceOther(s: Sector, at: int, b: seq<byte>, x: int, n: nat)
    requires 0 <= at && at + |b| <= BLKSIZ && 0 <= x && x + n <= BLKSIZ && (x + n <= at || at + |b| <= x)
    ensures Splice(s, at, b)[x..x + n] == s[x..x + n]
  {
    var r := Splice(s, at, b);
    forall i | x <= i < x + n ensures r[i] == s[i] { }
  }

  function IbAt(sectors: seq<Sector>, i: int): (r: IBlock)
    requires 0 <= i && Ib2Sect(i) < |sectors|
    ensures |r.dba| == IBLEN
  {
    DecodeIb(sectors[Ib2Sect(i)][Ib2Disp(i)..Ib2Disp(i) + IBSIZE])
  }

  /** The number of sectors before the data area, for `n` index blocks. */
  function DataStart(n: int): int {
    n / 7 + 1
  }

  predicate Shaped(sectors: seq<Sector>, ni: int) {
    0 <= ni && ni % 7 == 0 && DataStart(ni) <= |sectors| < 0x8000_0000
  }

  /** All index blocks of the disk. */
  function Ibs(sectors: seq<Sector>, ni: int): (r: seq<IBlock>)
    requires Shaped(sectors, ni)
    ensures |r| == ni
  {
    seq(ni, i requires 0 <= i < ni => IbAt(sectors, i))
  }

  /** The data area, indexed by sector number; what comes before it is blanked. */
  function DataOf(sectors: seq<Sector>, ni: int): (r: seq<Sector>)
    requires Shaped(sectors, ni)
    ensures |r| == |sectors|
  {
    seq(DataStart(ni), _ => seq(BLKSIZ, _ => 0)) + sectors[DataStart(ni)..]
  }

  lemma PutIbEffect(sectors: seq<Sector>, ni: int, inum: int, ib: IBlock)
    requires Shaped(sectors, ni) && 0 <= inum < ni && GoodIb(ib)
    ensures
      var s := Ib2Sect(inum);
      var sectors' := sectors[s := Splice(sectors[s], Ib2Disp(inum), EncodeIb(ib))];
      Ibs(sectors', ni) == Ibs(sectors, ni)[inum := ib] && DataOf(sectors', ni) == DataOf(sectors, ni)
  {
    hide DecodeIb, EncodeIb;
    var s := Ib2Sect(inum);
    var sectors' := sectors[s := Splice(sectors[s], Ib2Disp(inum), EncodeIb(ib))];
    forall i | 0 <= i < ni ensures IbAt(sectors', i) == if i == inum then ib else IbAt(sectors, i) {
      if i == inum {
        SpliceSelf(sectors[s], Ib2Disp(inum), EncodeIb(ib));
        DecodeEncodeIb(ib);
      } else if Ib2Sect(i) == s {
        ApartInSector(i, inum);
        SpliceOther(sectors[s], Ib2Disp(inum), EncodeIb(ib), Ib2Disp(i), IBSIZE);
      }
    }
    assert Ibs(sectors', ni) == Ibs(sectors, ni)[inum := ib];
    assert sectors'[DataStart(ni)..] == sectors[DataStart(ni)..];
  }

  lemma WriteEffect(sectors: seq<Sector>, ni: int, b: int, s: Sector)
    requires Shaped(sectors, ni) && DataStart(ni) <= b < |sectors|
    ensures Ibs(sectors[b := s], ni) == Ibs(sectors, ni)
    ensures DataOf(sectors[b := s], ni) == DataOf(sectors, ni)[b := s]
  {
    hide DecodeIb;
    var sectors' := sectors[b := s];
    forall i | 0 <= i < ni ensures IbAt(sectors', i) == IbAt(sectors, i) { }
    assert Ibs(sectors', ni) == Ibs(sectors, ni);
  }

  // ---------- The device ----------

  class Disk {
    const sectors: array<Sector>
    const ni: int

    predicate Valid()
      reads sectors
    {
      Shaped(sectors[..], ni)
    }

    ghost function Index(): (r: seq<IBlock>)
      requires Valid()
      reads sectors
      ensures |r| == ni
    {
      Ibs(sectors[..], ni)
    }

    ghost function Data(): (r: seq<Sector>)
      requires Valid()
      reads sectors
      ensures |r| == sectors.Length
    {
      DataOf(sectors[..], ni)
    }

    /** A disk whose sectors hold anything. */
    constructor Over(sectors: array<Sector>, ni: int)
      ensures this.sectors == sectors && this.ni == ni
    {
      this.sectors := sectors;
      this.ni := ni;
    }

    method Read(buf: array<byte>, b: int)
      requires 0 <= b < sectors.Length && buf.Length == BLKSIZ
      modifies buf
      ensures buf[..] == sectors[b]
    {
      forall i | 0 <= i < BLKSIZ { buf[i] := sectors[b][i]; }
    }

    /** Writing a sector of the data area. */
    method Write(buf: Sector, b: int)
      requires Valid() && DataStart(ni) <= b < sectors.Length
      modifies sectors
      ensures Valid() && Index() == old(Index()) && Data() == old(Data())[b := buf]
    {
      WriteEffect(sectors[..], ni, b, buf);
      ghost var was := sectors[..];
      sectors[b] := buf;
      assert sectors[..] == was[b := buf];
    }

    /** Reading a sector of the data area. */
    method ReadBlock(b: int) returns (buf: Sector)
      requires Valid() && DataStart(ni) <= b < sectors.Length
      ensures buf == Data()[b]
    {
      buf := sectors[b];
    }

    method Lfibget(inum: int) returns (ib: IBlock)
      requires Valid() && 0 <= inum < ni
      ensures ib == Index()[inum]
    {
      var dbuff := new byte[BLKSIZ];
      Read(dbuff, Ib2Sect(inum));
      var raw := new byte[IBSIZE];
      var from := Ib2Disp(inum);
      for i := 0 to IBSIZE
        invariant dbuff[..] == sectors[Ib2Sect(inum)]
        invariant forall j :: 0 <= j < i ==> raw[j] == dbuff[from + j]
      {
        raw[i] := dbuff[from + i];
      }
      assert raw[..] == sectors[Ib2Sect(inum)][from..from + IBSIZE];
      ib := DecodeIb(raw[..]);
    }

    method Lfibput(inum: int, ib: IBlock)
      requires Valid() && 0 <= inum < ni && GoodIb(ib)
      modifies sectors
      ensures Valid() && Index() == old(Index())[inum := ib] && Data() == old(Data())
    {
      var diskblock := Ib2Sect(inum);
      var dbuff := new byte[BLKSIZ];
      Read(dbuff, diskblock);
      var to := Ib2Disp(inum);
      var from := EncodeIb(ib);
      ghost var was := sectors[..];
      for i := 0 to IBSIZE
        invariant sectors[..] == was
        invariant forall j :: 0 <= j < i ==> dbuff[to + j] == from[j]
        invariant forall j :: 0 <= j < BLKSIZ && !(to <= j < to + i) ==> dbuff[j] == was[diskblock][j]
      {
        dbuff[to + i] := from[i];
      }
      assert dbuff[..] == Splice(was[diskblock], to, from);
      PutIbEffect(was, ni, inum, ib);
      sectors[diskblock] := dbuff[..];
      assert sectors[..] == was[diskblock := dbuff[..]];
    }
  }
}
