/** How many blocks a write can log: a disk on which the bound of `writei` is reached. */
module FsLimits {
  import opened Blocks
  import opened Fs

  // ---------- the disk ----------

  const LAYOUT: Layout := Layout(40960, 296, 245, 33)
  const FILES: nat := 3387

  /** In use: all but the last block under each of the first four bitmap blocks and the last
      sixteen blocks of the disk, which are under the fifth. */
  predicate Taken(b: nat) {
    b < 40944 && b % BPB != BPB - 1
  }

  function MapByte(j: nat, k: nat): byte {
    if j == 4 then (if k < 1022 then 255 else 0) else if k == 1023 then 127 else 255
  }

  function MapBlock(j: nat): Block {
    RawBlock(seq(BSIZE, k requires 0 <= k => MapByte(j, k)))
  }

  function DiskBlock(b: nat): Block {
    if 245 <= b < 250 then MapBlock(b - 245) else Zero()
  }

  function Disk(): (d: seq<Block>)
    ensures |d| == 40960 && forall b :: 0 <= b < 40960 ==> d[b] == DiskBlock(b)
  {
    seq<Block>(40960, b requires 0 <= b => DiskBlock(b))
  }

  /** Blocks in use, in order: number `x` is block `x` moved up past the free ones below it. */
  function BlockNo(x: nat): nat {
    x + x / (BPB - 1)
  }

  function AddrOf(i: nat, k: nat): word
    requires i < FILES && k <= NDIRECT
  {
    if k < NDIRECT then BlockNo(296 + NDIRECT * i + k) else 0
  }

  /** Every file has its twelve direct blocks and no indirect block. */
  function Inodes(): (r: seq<Inode>)
    ensures |r| == FILES
    ensures forall i :: 0 <= i < FILES ==> |r[i].addrs| == NDIRECT + 1 && r[i].size == NDIRECT * BSIZE
    ensures forall i, k :: 0 <= i < FILES && 0 <= k <= NDIRECT ==> r[i].addrs[k] == AddrOf(i, k)
  {
    seq(FILES, i requires 0 <= i < FILES => Inode(seq(NDIRECT + 1, k requires 0 <= k <= NDIRECT => AddrOf(i, k)), NDIRECT * BSIZE))
  }

  ghost function Image(): FS {
    FS(Disk(), Inodes())
  }

  function SlotAt(b: nat): (s: Slot)
    requires 296 <= b && Taken(b)
    ensures s.Direct?
  {
    var x := b - b / BPB - 296;
    Direct(x / NDIRECT, x % NDIRECT)
  }

  ghost function Owner(): map<nat, Slot> {
    map b: nat | 296 <= b < 40944 && Taken(b) :: SlotAt(b)
  }

  lemma {:induction false} Ones(n: nat, k: nat)
    ensures BitOf(Pow2(n) - 1, k) <==> k < n
  {
    if n > 0 && k > 0 {
      Ones(n - 1, k - 1);
      assert (Pow2(n) - 1) / 2 == Pow2(n - 1) - 1;
    } else if n == 0 && k > 0 {
      Ones(0, k - 1);
    }
  }

  lemma MapByteBits(j: nat, k: nat, e: nat)
    requires j < 5 && k < BSIZE && e < 8
    ensures BitOf(MapByte(j, k), e) <==> Taken(BPB * j + 8 * k + e)
  {
    assert Pow2(8) == 256 && Pow2(7) == 128;
    Ones(8, e);
    Ones(7, e);
    Ones(0, e);
    assert (BPB * j + 8 * k + e) % BPB == 8 * k + e;
  }

  lemma UsedIsTaken(b: nat)
    requires b < 40960
    ensures Used(LAYOUT, Disk(), b) <==> Taken(b)
  {
    var j, k, e := b / BPB, b % BPB / 8, b % 8;
    assert b == BPB * j + 8 * k + e && b % BPB % 8 == e;
    MapByteBits(j, k, e);
    assert Disk()[BBlock(LAYOUT, b)] == MapBlock(j);
  }

  lemma Numbers(i: nat, k: nat)
    requires i < FILES && k < NDIRECT
    ensures var b := AddrOf(i, k); 296 <= b && Taken(b) && SlotAt(b) == Direct(i, k)
  {
    var x := 296 + NDIRECT * i + k;
    MovedUp(x);
    Halves(i, k);
    hide BlockNo;
  }

  /** Block number `x` of those in use. */
  lemma MovedUp(x: nat)
    requires x < 40940
    ensures Taken(BlockNo(x)) && BlockNo(x) >= x && BlockNo(x) - BlockNo(x) / BPB == x
  {
    var q, r := x / (BPB - 1), x % (BPB - 1);
    assert x == (BPB - 1) * q + r;
    Whole(q, r);
  }

  lemma Whole(q: nat, r: nat)
    requires r < BPB
    ensures (BPB * q + r) / BPB == q && (BPB * q + r) % BPB == r
  {
  }

  lemma Halves(i: nat, k: nat)
    requires k < NDIRECT
    ensures (NDIRECT * i + k) / NDIRECT == i && (NDIRECT * i + k) % NDIRECT == k
  {
  }

  lemma NumbersBack(b: nat)
    requires 296 <= b && Taken(b)
    ensures var s := SlotAt(b); s.i < FILES && s.k < NDIRECT && AddrOf(s.i, s.k) == b
  {
    var q := b / BPB;
    var x := b - q;
    assert x == (BPB - 1) * q + b % BPB;
    assert x / (BPB - 1) == q;
  }

  lemma ImageOwned()
    ensures Owned(LAYOUT, Image(), Owner(), {})
  {
    var fs := Image();
    hide Disk, Used, Taken, SlotAt, AddrOf;
    assert Sane(LAYOUT, fs);
    forall s | ValidSlot(fs, s) && Names(fs, s) != 0 ensures Names(fs, s) in Owner() && Owner()[Names(fs, s)] == s {
      NamesOf(s);
      Numbers(s.i, s.k);
      TakenBelow(Names(fs, s));
    }
    forall b | b in Owner() ensures ValidSlot(fs, Owner()[b]) && Names(fs, Owner()[b]) == b {
      NumbersBack(b);
      NamesOf(Owner()[b]);
    }
    forall b: nat | b < 40960 ensures Used(LAYOUT, fs.disk, b) <==> b < 296 || b in Owner() {
      UsedIsTaken(b);
      TakenBelow(b);
    }
  }

  lemma TakenBelow(b: nat)
    ensures Taken(b) ==> b < 40944
    ensures b < 296 ==> Taken(b)
  {
  }

  lemma NamesOf(s: Slot)
    requires ValidSlot(Image(), s)
    ensures Names(Image(), s) == if s.Direct? then AddrOf(s.i, s.k) else 0
  {
    hide Disk;
    assert AddrOf(s.i, NDIRECT) == 0;
  }

  lemma ImageSolid()
    ensures Solid(Image())
  {
    forall i: nat, bn: nat | i < FILES && bn * BSIZE < NDIRECT * BSIZE ensures Addr(Image(), i, bn) != 0 {
      NamesOf(Direct(i, bn));
      Numbers(i, bn);
    }
  }

  // ---------- counting ----------

  lemma {:induction false} Run(lo: nat, n: nat, log: set<nat>)
    requires forall c :: lo <= c < lo + n ==> c in log
    ensures |log| >= n
  {
    if n > 0 {
      Run(lo, n - 1, log - {lo + n - 1});
    }
  }

  /** A block in use that was free at the start. */
  ghost predicate New(d: seq<Block>, c: nat) {
    c < 40960 && !Taken(c) && Used(LAYOUT, d, c)
  }

  lemma NewFree(d: seq<Block>, c: nat)
    requires New(d, c)
    ensures c < 40960 && !Taken(c)
  {
  }

  /** Free blocks are taken in order, so below a new block every free block is gone and logged. */
  lemma BelowNew(d: seq<Block>, logged: set<nat>, c: nat, h: nat)
    requires Trail(LAYOUT, Disk(), d, logged) && New(d, c) && h <= c && !Taken(h)
    ensures h in logged && BBlock(LAYOUT, h) in logged
  {
    UsedIsTaken(c);
    UsedIsTaken(h);
    hide Used, Disk, Taken;
  }

  /** What the pointer and the entries of an indirect block name was free at the start. */
  lemma NamesNew(fs: FS, owner: map<nat, Slot>, s: Slot)
    requires Owned(LAYOUT, fs, owner, {}) && MoreAddrs(Image(), fs)
    requires ValidSlot(fs, s) && !s.Direct? && Names(fs, s) != 0
    ensures New(fs.disk, Names(fs, s)) && Names(fs, s) in owner && owner[Names(fs, s)] == s
  {
    var a := Names(fs, s);
    if Taken(a) {
      TakenOwner(fs, owner, a);
    }
  }

  lemma TakenOwner(fs: FS, owner: map<nat, Slot>, a: nat)
    requires Owned(LAYOUT, fs, owner, {}) && MoreAddrs(Image(), fs) && 296 <= a && Taken(a)
    ensures a in owner && owner[a].Direct?
  {
    hide Disk, Used, Taken, SlotAt, AddrOf;
    NumbersBack(a);
    var t := SlotAt(a);
    NamesOf(t);
    assert Addr(Image(), t.i, t.k) == a;
    assert Addr(fs, t.i, t.k) == a;
  }

  /** The indirect block and the blocks after the twelfth are all new, and all different. */
  lemma AllNew(fs: FS, owner: map<nat, Slot>, j: nat)
    requires Owned(LAYOUT, fs, owner, {}) && MoreAddrs(Image(), fs) && |fs.inodes| == FILES && j < NINDIRECT
    requires Addr(fs, 0, NDIRECT + j) != 0
    ensures |fs.inodes[0].addrs| == NDIRECT + 1
    ensures var a, ind := Addr(fs, 0, NDIRECT + j), fs.inodes[0].addrs[NDIRECT];
            && New(fs.disk, a) && a in owner && owner[a] == Entry(0, j)
            && New(fs.disk, ind) && ind in owner && owner[ind] == Indirect(0)
  {
    hide MoreAddrs, New;
    NamesNew(fs, owner, Entry(0, j));
    NamesNew(fs, owner, Indirect(0));
  }

  lemma FreeBelow(c: nat)
    requires c < 40960 && !Taken(c)
    ensures c in {8191, 16383, 24575} || c >= 32767
    ensures c == 32767 || c < 32767 || c >= 40944
  {
    assert c < 40944 ==> c == BPB * (c / BPB) + BPB - 1;
  }

  /** Four new blocks reach under the fourth bitmap block. */
  lemma FourReach(a: nat, b: nat, c: nat, e: nat) returns (top: nat)
    requires a < 40960 && b < 40960 && c < 40960 && e < 40960 && !Taken(a) && !Taken(b) && !Taken(c) && !Taken(e)
    requires a != b && a != c && a != e && b != c && b != e && c != e
    ensures top in {a, b, c, e} && top >= 32767
  {
    hide Taken;
    FreeBelow(a);
    FreeBelow(b);
    FreeBelow(c);
    FreeBelow(e);
    top := if a >= 32767 then a else if b >= 32767 then b else if c >= 32767 then c else e;
  }

  lemma FiveReach(a: nat, b: nat, c: nat, e: nat, f: nat) returns (top: nat)
    requires a < 40960 && b < 40960 && c < 40960 && e < 40960 && f < 40960
    requires !Taken(a) && !Taken(b) && !Taken(c) && !Taken(e) && !Taken(f)
    requires a != b && a != c && a != e && b != c && b != e && c != e && f != a && f != b && f != c && f != e
    ensures top in {a, b, c, e, f} && top >= 40944
  {
    hide Taken;
    FreeBelow(a);
    FreeBelow(b);
    FreeBelow(c);
    FreeBelow(e);
    FreeBelow(f);
    top := if a >= 40944 then a else if b >= 40944 then b else if c >= 40944 then c else if e >= 40944 then e else f;
  }

  lemma FreeAtStart()
    ensures !Taken(8191) && !Taken(16383) && !Taken(24575) && !Taken(32767) && !Taken(40944)
  {
  }

  lemma FourNew(d: seq<Block>, logged: set<nat>, a: nat, b: nat, c: nat, e: nat)
    requires Trail(LAYOUT, Disk(), d, logged) && New(d, a) && New(d, b) && New(d, c) && New(d, e)
    requires a != b && a != c && a != e && b != c && b != e && c != e
    ensures 8191 in logged && 16383 in logged && 24575 in logged && 32767 in logged
    ensures 245 in logged && 246 in logged && 247 in logged && 248 in logged
  {
    hide Trail, Disk, Taken, Used, New;
    FreeAtStart();
    NewFree(d, a);
    NewFree(d, b);
    NewFree(d, c);
    NewFree(d, e);
    var top := FourReach(a, b, c, e);
    BelowNew(d, logged, top, 8191);
    BelowNew(d, logged, top, 16383);
    BelowNew(d, logged, top, 24575);
    BelowNew(d, logged, top, 32767);
  }

  /** A fifth reaches under the fifth. */
  lemma FifthNew(d: seq<Block>, logged: set<nat>, a: nat, b: nat, c: nat, e: nat, f: nat)
    requires Trail(LAYOUT, Disk(), d, logged) && New(d, a) && New(d, b) && New(d, c) && New(d, e) && New(d, f)
    requires a != b && a != c && a != e && b != c && b != e && c != e && f != a && f != b && f != c && f != e
    ensures 40944 in logged && 249 in logged
  {
    hide Trail, Disk, Taken, Used, New;
    FreeAtStart();
    NewFree(d, a);
    NewFree(d, b);
    NewFree(d, c);
    NewFree(d, e);
    NewFree(d, f);
    var top := FiveReach(a, b, c, e, f);
    BelowNew(d, logged, top, 40944);
  }

  /** A full disk means that the sixteen last blocks have been logged. */
  lemma NotFull(d: seq<Block>, logged: set<nat>)
    requires Trail(LAYOUT, Disk(), d, logged) && forall c: nat :: c < 40960 ==> Used(LAYOUT, d, c)
    ensures |logged| >= 16
  {
    forall c | 40944 <= c < 40960 ensures c in logged {
      BelowNew(d, logged, c, c);
    }
    Run(40944, 16, logged);
  }

  lemma EightOf(logged: set<nat>) returns (s: set<nat>)
    requires 8191 in logged && 16383 in logged && 24575 in logged && 32767 in logged
    requires 245 in logged && 246 in logged && 247 in logged && 248 in logged
    ensures s <= logged && |s| == 8 && 33 !in s && 249 !in s && 307 !in s && 40944 !in s
  {
    var a, b := {8191, 16383, 24575, 32767}, {245, 246, 247, 248};
    assert |a| == 4 && |b| == 4 && a !! b;
    s := a + b;
  }

  lemma TenOf(logged: set<nat>)
    requires 8191 in logged && 16383 in logged && 24575 in logged && 32767 in logged
    requires 245 in logged && 246 in logged && 247 in logged && 248 in logged && 33 in logged && 307 in logged
    ensures |logged| >= 10
  {
    var s := EightOf(logged);
    assert |s + {33}| == 9 && |s + {33} + {307}| == 10;
    SubsetSize(s + {33} + {307}, logged);
  }

  lemma ElevenOf(logged: set<nat>)
    requires 8191 in logged && 16383 in logged && 24575 in logged && 32767 in logged && 40944 in logged
    requires 245 in logged && 246 in logged && 247 in logged && 248 in logged && 249 in logged && 33 in logged
    ensures |logged| >= 11
  {
    var s := EightOf(logged);
    assert |s + {33}| == 9 && |s + {33} + {249}| == 10 && |s + {33} + {249} + {40944}| == 11;
    SubsetSize(s + {33} + {249} + {40944}, logged);
  }

  // ---------- the two writes ----------

  /** One `writei` of the size `filewrite` allows, not aligned to blocks, logs exactly as many
      blocks as a transaction may. */
  method LogsTen() returns (fs: FileSystem, tot: int)
    ensures fresh(fs) && fs.Valid() && Solid(fs.State()) && tot == CHUNK && |fs.logged| == MAXOPBLOCKS
  {
    hide Owned, Solid, Addr, Trail, MoreAddrs, DataLogged, Used, SameBytes, Holds, Disk, Inodes;
    ImageOwned();
    ImageSolid();
    fs := new FileSystem(LAYOUT, Disk(), Inodes(), Owner());
    var off, src := 11 * BSIZE + 1, seq(CHUNK, _ => 0 as byte);
    ghost var dirty;
    tot, dirty := fs.WriteI(0, src, CHUNK, off, CHUNK);
    assert LogBound(off, CHUNK) == 10;
    if tot < CHUNK { NotFull(fs.disk, fs.logged); }
    TenLogged(fs.State(), fs.owner, fs.logged);
  }

  lemma SolidAt(fs: FS, i: nat, bn: nat)
    requires Solid(fs) && i < |fs.inodes| && bn * BSIZE < fs.inodes[i].size
    ensures Addr(fs, i, bn) != 0
  {
  }

  lemma DataAt(fs: FS, i: nat, lo: nat, hi: nat, logged: set<nat>, bn: nat)
    requires DataLogged(fs, i, lo, hi, logged) && lo < hi && lo / BSIZE <= bn && bn * BSIZE < hi
    ensures Addr(fs, i, bn) in logged
  {
  }

  lemma EleventhKept(fs: FS)
    requires MoreAddrs(Image(), fs)
    ensures Addr(fs, 0, 11) == 307
  {
    NamesOf(Direct(0, 11));
    hide Disk;
    assert Addr(Image(), 0, 11) == 307;
  }

  lemma TenLogged(fs: FS, owner: map<nat, Slot>, logged: set<nat>)
    requires Owned(LAYOUT, fs, owner, {}) && Solid(fs) && MoreAddrs(Image(), fs) && Trail(LAYOUT, Disk(), fs.disk, logged)
    requires |fs.inodes| == FILES && fs.inodes[0].size == 11 * BSIZE + 1 + CHUNK
    requires DataLogged(fs, 0, 11 * BSIZE + 1, 11 * BSIZE + 1 + CHUNK, logged) && IBlock(LAYOUT, 0) in logged
    ensures |logged| >= 10
  {
    hide Owned, Solid, Addr, MoreAddrs, DataLogged, Disk, Trail, Image;
    EleventhKept(fs);
    DataAt(fs, 0, 11 * BSIZE + 1, 11 * BSIZE + 1 + CHUNK, logged, 11);
    SolidAt(fs, 0, 12);
    SolidAt(fs, 0, 13);
    SolidAt(fs, 0, 14);
    AllNew(fs, owner, 0);
    AllNew(fs, owner, 1);
    AllNew(fs, owner, 2);
    FourNew(fs.disk, logged, fs.inodes[0].addrs[NDIRECT], Addr(fs, 0, 12), Addr(fs, 0, 13), Addr(fs, 0, 14));
    TenOf(logged);
  }

  /** One block more, even aligned, logs more than a transaction may. */
  method LogsEleven() returns (fs: FileSystem, tot: int)
    ensures fresh(fs) && fs.Valid() && Solid(fs.State()) && tot == 4 * BSIZE && |fs.logged| == MAXOPBLOCKS + 1
  {
    hide Owned, Solid, Addr, Trail, MoreAddrs, DataLogged, Used, SameBytes, Holds, Disk, Inodes;
    ImageOwned();
    ImageSolid();
    fs := new FileSystem(LAYOUT, Disk(), Inodes(), Owner());
    var src := seq(4 * BSIZE, _ => 0 as byte);
    ghost var dirty;
    tot, dirty := fs.WriteI(0, src, 4 * BSIZE, NDIRECT * BSIZE, 4 * BSIZE);
    assert LogBound(NDIRECT * BSIZE, 4 * BSIZE) == 11;
    if tot < 4 * BSIZE { NotFull(fs.disk, fs.logged); }
    ElevenLogged(fs.State(), fs.owner, fs.logged);
  }

  lemma ElevenLogged(fs: FS, owner: map<nat, Slot>, logged: set<nat>)
    requires Owned(LAYOUT, fs, owner, {}) && Solid(fs) && MoreAddrs(Image(), fs) && Trail(LAYOUT, Disk(), fs.disk, logged)
    requires |fs.inodes| == FILES && fs.inodes[0].size == 16 * BSIZE && IBlock(LAYOUT, 0) in logged
    ensures |logged| >= 11
  {
    hide Owned, Solid, Addr, MoreAddrs, Disk, Trail, Image;
    SolidAt(fs, 0, 12);
    SolidAt(fs, 0, 13);
    SolidAt(fs, 0, 14);
    SolidAt(fs, 0, 15);
    AllNew(fs, owner, 0);
    AllNew(fs, owner, 1);
    AllNew(fs, owner, 2);
    AllNew(fs, owner, 3);
    FourNew(fs.disk, logged, fs.inodes[0].addrs[NDIRECT], Addr(fs, 0, 12), Addr(fs, 0, 13), Addr(fs, 0, 14));
    FifthNew(fs.disk, logged, fs.inodes[0].addrs[NDIRECT], Addr(fs, 0, 12), Addr(fs, 0, 13), Addr(fs, 0, 14), Addr(fs, 0, 15));
    ElevenOf(logged);
  }
}
