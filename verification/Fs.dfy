/** Blocks, inodes and file contents of kernel/fs.c, on the flat array of blocks that the
    log and the buffer cache present. */
module Fs {
  import opened Blocks

  const NDIRECT: nat := 12
  const NINDIRECT: nat := WORDS
  const MAXFILE: nat := NDIRECT + NINDIRECT
  const BPB: nat := 8 * BSIZE       // bitmap bits per block
  const IPB: nat := 16              // inodes per block

  /** From the superblock. Blocks below `nmeta` are boot block, superblock, log, inodes and
      bitmap. */
  datatype Layout = Layout(size: nat, nmeta: nat, bmapstart: nat, inodestart: nat)

  datatype Inode = Inode(addrs: seq<word>, size: nat)

  datatype FS = FS(disk: seq<Block>, inodes: seq<Inode>)

  /** Block of the free map holding the bit for block `b`. */
  function BBlock(l: Layout, b: nat): nat {
    b / BPB + l.bmapstart
  }

  function IBlock(l: Layout, i: nat): nat {
    i / IPB + l.inodestart
  }

  ghost predicate Sane(l: Layout, fs: FS) {
    && 0 < l.nmeta <= l.size <= 0x1_0000_0000 && |fs.disk| == l.size
    && BBlock(l, l.size - 1) < l.nmeta
    && (forall i :: 0 <= i < |fs.inodes| ==> |fs.inodes[i].addrs| == NDIRECT + 1 && IBlock(l, i) < l.nmeta)
  }

  // ---------- the free map ----------

  lemma BitmapBlock(l: Layout, b: nat)
    requires 0 < l.size && BBlock(l, l.size - 1) < l.nmeta && b < l.size
    ensures BBlock(l, b) < l.nmeta && b % BPB / 8 < BSIZE
  {
  }

  ghost predicate Used(l: Layout, d: seq<Block>, b: nat) {
    && BBlock(l, b) < |d|
    && Bit(d[BBlock(l, b)].data, b % BPB)
  }

  lemma ScanIndex(b: nat, bi: nat)
    requires b % BPB == 0 && bi < BPB
    ensures (b + bi) / BPB == b / BPB && (b + bi) % BPB == bi && (b + BPB) % BPB == 0
  {
  }

  /** The disk with the bit for `b` set, respectively cleared. */
  ghost function Mark(l: Layout, d: seq<Block>, b: nat): (r: seq<Block>)
    requires BBlock(l, b) < |d| && !Used(l, d, b)
    ensures |r| == |d|
  {
    d[BBlock(l, b) := RawBlock(SetBit(d[BBlock(l, b)].data, b % BPB))]
  }

  ghost function Unmark(l: Layout, d: seq<Block>, b: nat): (r: seq<Block>)
    requires Used(l, d, b)
    ensures |r| == |d|
  {
    d[BBlock(l, b) := RawBlock(ClearBit(d[BBlock(l, b)].data, b % BPB))]
  }

  lemma MarkOnly(l: Layout, d: seq<Block>, b: nat, c: nat)
    requires BBlock(l, b) < |d| && BBlock(l, c) < |d|
    ensures !Used(l, d, b) ==> (Used(l, Mark(l, d, b), c) <==> b == c || Used(l, d, c))
    ensures Used(l, d, b) ==> (Used(l, Unmark(l, d, b), c) <==> b != c && Used(l, d, c))
  {
    if BBlock(l, b) == BBlock(l, c) {
      BitOnly(d[BBlock(l, b)].data, b % BPB, c % BPB);
      assert b == c <==> b % BPB == c % BPB;
    }
  }

  // ---------- who names a block ----------

  /** Places a block number can be stored: a direct slot of inode `i`, its indirect pointer,
      or an entry of its indirect block. */
  datatype Slot = Direct(i: nat, k: nat) | Indirect(i: nat) | Entry(i: nat, j: nat)

  predicate ValidSlot(fs: FS, s: Slot) {
    && s.i < |fs.inodes| && |fs.inodes[s.i].addrs| == NDIRECT + 1
    && (s.Direct? ==> s.k < NDIRECT)
    && (s.Entry? ==> s.j < NINDIRECT)
  }

  /** The block number stored in a slot; 0 for none. */
  function Names(fs: FS, s: Slot): word
    requires ValidSlot(fs, s)
  {
    var addrs := fs.inodes[s.i].addrs;
    if s.Direct? then addrs[s.k]
    else if s.Indirect? then addrs[NDIRECT]
    else if addrs[NDIRECT] == 0 || addrs[NDIRECT] >= |fs.disk| then 0
    else GetWord(fs.disk[addrs[NDIRECT]], s.j)
  }

  /** Exclusive ownership: `owner` maps every block in use for file data to the one slot
      that names it; `loose` blocks are allocated but not named yet, or named no more. A
      bitmap bit is set exactly for metadata, owned and loose blocks. */
  ghost predicate Owned(l: Layout, fs: FS, owner: map<nat, Slot>, loose: set<nat>) {
    && Sane(l, fs)
    && (forall s :: ValidSlot(fs, s) && Names(fs, s) != 0 ==> Names(fs, s) in owner && owner[Names(fs, s)] == s)
    && (forall b :: b in owner ==> l.nmeta <= b < l.size && ValidSlot(fs, owner[b]) && Names(fs, owner[b]) == b)
    && (forall b :: b in loose ==> l.nmeta <= b < l.size && b !in owner)
    && (forall b: nat :: b < l.size ==> (Used(l, fs.disk, b) <==> b < l.nmeta || b in owner || b in loose))
  }

  // ---------- steps that keep ownership ----------

  /** Indirect blocks unchanged: every slot still names what it named. */
  ghost predicate SameNames(fs: FS, fs2: FS) {
    && |fs2.inodes| == |fs.inodes|
    && forall s :: ValidSlot(fs, s) ==> ValidSlot(fs2, s) && Names(fs2, s) == Names(fs, s)
  }

  lemma NamesFrame(l: Layout, fs: FS, owner: map<nat, Slot>, loose: set<nat>, fs2: FS)
    requires Owned(l, fs, owner, loose)
    requires fs2.inodes == fs.inodes && |fs2.disk| == |fs.disk|
    requires forall b :: b in owner && owner[b].Indirect? ==> fs2.disk[b] == fs.disk[b]
    ensures SameNames(fs, fs2)
  {
    forall s | ValidSlot(fs, s) ensures ValidSlot(fs2, s) && Names(fs2, s) == Names(fs, s) {
      var ind := Indirect(s.i);
      assert ValidSlot(fs, ind);
      assert Names(fs, ind) != 0 ==> Names(fs, ind) in owner && owner[Names(fs, ind)] == ind;
    }
  }

  lemma Reowned(l: Layout, fs: FS, owner: map<nat, Slot>, loose: set<nat>, fs2: FS, loose2: set<nat>)
    requires Owned(l, fs, owner, loose) && SameNames(fs, fs2) && SameNames(fs2, fs)
    requires |fs2.disk| == |fs.disk| && fs2.inodes == fs.inodes
    requires forall b :: b in loose2 ==> l.nmeta <= b < l.size && b !in owner
    requires forall b: nat :: b < l.size ==> (Used(l, fs2.disk, b) <==> b < l.nmeta || b in owner || b in loose2)
    ensures Owned(l, fs2, owner, loose2)
  {
  }

  lemma SameNamesSym(fs: FS, fs2: FS)
    requires SameNames(fs, fs2) && fs2.inodes == fs.inodes
    ensures SameNames(fs2, fs)
  {
    forall s | ValidSlot(fs2, s) ensures ValidSlot(fs, s) && Names(fs, s) == Names(fs2, s) {
      assert ValidSlot(fs, s);
    }
  }

  /** `balloc` on a free block: bit set, contents zeroed. */
  ghost function Alloc(l: Layout, fs: FS, b: nat): FS
    requires b < |fs.disk| && BBlock(l, b) < |fs.disk| && !Used(l, fs.disk, b)
  {
    fs.(disk := Mark(l, fs.disk, b)[b := Zero()])
  }

  lemma AllocOwned(l: Layout, fs: FS, owner: map<nat, Slot>, loose: set<nat>, b: nat)
    requires Owned(l, fs, owner, loose) && b < l.size && !Used(l, fs.disk, b)
    ensures BBlock(l, b) < |fs.disk| && l.nmeta <= b && b !in owner && b !in loose
    ensures Owned(l, Alloc(l, fs, b), owner, loose + {b}) && SameNames(fs, Alloc(l, fs, b))
  {
    BitmapBlock(l, b);
    var fs2 := Alloc(l, fs, b);
    NamesFrame(l, fs, owner, loose, fs2);
    SameNamesSym(fs, fs2);
    AllocUsed(l, fs, b);
    Reowned(l, fs, owner, loose, fs2, loose + {b});
  }

  lemma AllocUsed(l: Layout, fs: FS, b: nat)
    requires Sane(l, fs) && l.nmeta <= b < l.size && !Used(l, fs.disk, b)
    ensures BBlock(l, b) < |fs.disk|
    ensures forall c: nat :: c < l.size ==> (Used(l, Alloc(l, fs, b).disk, c) <==> c == b || Used(l, fs.disk, c))
  {
    BitmapBlock(l, b);
    forall c: nat | c < l.size ensures Used(l, Alloc(l, fs, b).disk, c) <==> c == b || Used(l, fs.disk, c) {
      BitmapBlock(l, c);
      MarkOnly(l, fs.disk, b, c);
    }
  }

  /** `bfree`: bit cleared. */
  ghost function Release(l: Layout, fs: FS, b: nat): FS
    requires Used(l, fs.disk, b)
  {
    fs.(disk := Unmark(l, fs.disk, b))
  }

  lemma ReleaseOwned(l: Layout, fs: FS, owner: map<nat, Slot>, loose: set<nat>, b: nat)
    requires Owned(l, fs, owner, loose) && b in loose
    ensures Used(l, fs.disk, b)
    ensures Owned(l, Release(l, fs, b), owner, loose - {b}) && SameNames(fs, Release(l, fs, b))
  {
    BitmapBlock(l, b);
    var fs2 := Release(l, fs, b);
    NamesFrame(l, fs, owner, loose, fs2);
    SameNamesSym(fs, fs2);
    forall c: nat | c < l.size ensures Used(l, fs2.disk, c) <==> c != b && Used(l, fs.disk, c) {
      BitmapBlock(l, c);
      MarkOnly(l, fs.disk, b, c);
    }
    Reowned(l, fs, owner, loose, fs2, loose - {b});
  }

  ghost function SetAddr(fs: FS, i: nat, k: nat, b: word): FS
    requires i < |fs.inodes| && k < |fs.inodes[i].addrs|
  {
    fs.(inodes := fs.inodes[i := fs.inodes[i].(addrs := fs.inodes[i].addrs[k := b])])
  }

  /** Block number `b` stored in slot `s`. */
  ghost function Attach(fs: FS, s: Slot, b: word): FS
    requires ValidSlot(fs, s)
    requires s.Entry? ==> fs.inodes[s.i].addrs[NDIRECT] < |fs.disk|
  {
    if s.Direct? then SetAddr(fs, s.i, s.k, b)
    else if s.Indirect? then SetAddr(fs, s.i, NDIRECT, b)
    else
      var ind := fs.inodes[s.i].addrs[NDIRECT];
      fs.(disk := fs.disk[ind := PutWord(fs.disk[ind], s.j, b)])
  }

  /** A loose, zeroed block may be attached to any empty slot; an entry needs its inode's
      indirect block in place. */
  ghost predicate Attachable(fs: FS, loose: set<nat>, s: Slot, b: word) {
    && ValidSlot(fs, s) && Names(fs, s) == 0 && b != 0 && b in loose && b < |fs.disk|
    && (s.Indirect? ==> fs.disk[b] == Zero())
    && (s.Entry? ==> 0 < fs.inodes[s.i].addrs[NDIRECT] < |fs.disk|)
  }

  lemma AttachNames(l: Layout, fs: FS, owner: map<nat, Slot>, loose: set<nat>, s: Slot, b: word, t: Slot)
    requires Owned(l, fs, owner, loose) && Attachable(fs, loose, s, b) && ValidSlot(fs, t)
    ensures ValidSlot(Attach(fs, s, b), t)
    ensures Names(Attach(fs, s, b), t) == if t == s then b else Names(fs, t)
  {
    if s.Entry? {
      var ind := fs.inodes[s.i].addrs[NDIRECT];
      GetPutWord(fs.disk[ind], s.j, b);
      assert Names(fs, Indirect(s.i)) == ind && ValidSlot(fs, Indirect(s.i));
      assert ValidSlot(fs, Indirect(t.i));
      assert t.i != s.i ==> fs.inodes[t.i].addrs[NDIRECT] != ind by {
        assert Names(fs, Indirect(t.i)) == fs.inodes[t.i].addrs[NDIRECT];
        assert owner[ind] == Indirect(s.i);
      }
    } else if s.Indirect? {
      ZeroWords();
    }
  }

  lemma AttachSane(l: Layout, fs: FS, owner: map<nat, Slot>, loose: set<nat>, s: Slot, b: word)
    requires Owned(l, fs, owner, loose) && Attachable(fs, loose, s, b)
    ensures Sane(l, Attach(fs, s, b))
    ensures forall c: nat :: c < l.size ==> (Used(l, Attach(fs, s, b).disk, c) <==> Used(l, fs.disk, c))
  {
    hide Used;
    if s.Entry? {
      var ind := Names(fs, Indirect(s.i));
      assert ValidSlot(fs, Indirect(s.i)) && ind in owner;
      BitmapFrame(l, fs, ind, PutWord(fs.disk[ind], s.j, b));
    }
  }

  lemma AttachOwned(l: Layout, fs: FS, owner: map<nat, Slot>, loose: set<nat>, s: Slot, b: word)
    requires Owned(l, fs, owner, loose) && Attachable(fs, loose, s, b)
    ensures Owned(l, Attach(fs, s, b), owner[b := s], loose - {b})
  {
    var fs2 := Attach(fs, s, b);
    AttachSane(l, fs, owner, loose, s, b);
    forall t ensures ValidSlot(fs2, t) <==> ValidSlot(fs, t) {
    }
    forall t | ValidSlot(fs, t) ensures Names(fs2, t) == if t == s then b else Names(fs, t) {
      AttachNames(l, fs, owner, loose, s, b, t);
    }
    Reattached(l, fs, owner, loose, fs2, s, b);
  }

  lemma Reattached(l: Layout, fs: FS, owner: map<nat, Slot>, loose: set<nat>, fs2: FS, s: Slot, b: word)
    requires Owned(l, fs, owner, loose) && Sane(l, fs2) && 0 < l.nmeta
    requires ValidSlot(fs, s) && ValidSlot(fs2, s) && b in loose && b != 0 && Names(fs, s) == 0
    requires forall t :: ValidSlot(fs2, t) <==> ValidSlot(fs, t)
    requires forall t :: ValidSlot(fs, t) ==> Names(fs2, t) == if t == s then b else Names(fs, t)
    requires forall c: nat :: c < l.size ==> (Used(l, fs2.disk, c) <==> Used(l, fs.disk, c))
    ensures Owned(l, fs2, owner[b := s], loose - {b})
  {
    hide Used, Names, Sane, ValidSlot;
  }

  /** A direct slot emptied: its block is loose. */
  lemma DetachDirect(l: Layout, fs: FS, owner: map<nat, Slot>, loose: set<nat>, i: nat, k: nat)
    requires Owned(l, fs, owner, loose) && i < |fs.inodes| && k < NDIRECT && fs.inodes[i].addrs[k] != 0
    ensures var b := fs.inodes[i].addrs[k];
            && b in owner && owner[b] == Direct(i, k)
            && Owned(l, SetAddr(fs, i, k, 0), owner - {b}, loose + {b})
  {
    var fs2, b, s := SetAddr(fs, i, k, 0), fs.inodes[i].addrs[k], Direct(i, k);
    assert ValidSlot(fs, s) && Names(fs, s) == b && Sane(l, fs2);
    forall t ensures ValidSlot(fs2, t) <==> ValidSlot(fs, t) {
    }
    forall t | ValidSlot(fs, t) ensures Names(fs2, t) == if t == s then 0 else Names(fs, t) {
    }
    Redetached(l, fs, owner, loose, fs2, s);
  }

  lemma Redetached(l: Layout, fs: FS, owner: map<nat, Slot>, loose: set<nat>, fs2: FS, s: Slot)
    requires Owned(l, fs, owner, loose) && Sane(l, fs2) && ValidSlot(fs, s) && Names(fs, s) != 0 && fs2.disk == fs.disk
    requires forall t :: ValidSlot(fs2, t) <==> ValidSlot(fs, t)
    requires forall t :: ValidSlot(fs, t) ==> Names(fs2, t) == if t == s then 0 else Names(fs, t)
    ensures Names(fs, s) in owner && owner[Names(fs, s)] == s
    ensures Owned(l, fs2, owner - {Names(fs, s)}, loose + {Names(fs, s)})
  {
    hide Used, Names, Sane, ValidSlot;
  }

  /** The blocks reached through the indirect pointer of inode `i`, itself included. */
  ghost function Tail(owner: map<nat, Slot>, i: nat): set<nat> {
    set b | b in owner && !owner[b].Direct? && owner[b].i == i
  }

  /** The indirect pointer cleared: its block and everything in it are loose. */
  lemma DetachIndirect(l: Layout, fs: FS, owner: map<nat, Slot>, loose: set<nat>, i: nat)
    requires Owned(l, fs, owner, loose) && i < |fs.inodes|
    ensures Owned(l, SetAddr(fs, i, NDIRECT, 0), owner - Tail(owner, i), loose + Tail(owner, i))
  {
    var fs2 := SetAddr(fs, i, NDIRECT, 0);
    forall t | ValidSlot(fs2, t)
      ensures ValidSlot(fs, t) && Names(fs2, t) == if t.i == i && !t.Direct? then 0 else Names(fs, t)
    {
    }
  }

  // ---------- file contents ----------

  function SlotOf(i: nat, bn: nat): Slot {
    if bn < NDIRECT then Direct(i, bn) else Entry(i, bn - NDIRECT)
  }

  /** Disk address of block `bn` of inode `i`; 0 if it has none. */
  function Addr(fs: FS, i: nat, bn: nat): word {
    if ValidSlot(fs, SlotOf(i, bn)) then Names(fs, SlotOf(i, bn)) else 0
  }

  /** Contents of block `bn` of inode `i`; a block never allocated reads as zeros. */
  ghost function BlockOf(fs: FS, i: nat, bn: nat): Block {
    if 0 < Addr(fs, i, bn) < |fs.disk| then fs.disk[Addr(fs, i, bn)] else Zero()
  }

  ghost predicate SameFiles(fs: FS, fs2: FS) {
    forall i: nat, bn: nat :: BlockOf(fs2, i, bn) == BlockOf(fs, i, bn)
  }

  lemma AddrOwned(l: Layout, fs: FS, owner: map<nat, Slot>, loose: set<nat>, i: nat, bn: nat)
    requires Owned(l, fs, owner, loose) && Addr(fs, i, bn) != 0
    ensures var a := Addr(fs, i, bn); a in owner && owner[a] == SlotOf(i, bn) && l.nmeta <= a < |fs.disk|
  {
  }

  lemma AllocFiles(l: Layout, fs: FS, owner: map<nat, Slot>, loose: set<nat>, b: nat)
    requires Owned(l, fs, owner, loose) && b < l.size && !Used(l, fs.disk, b)
    ensures BBlock(l, b) < |fs.disk| && SameFiles(fs, Alloc(l, fs, b))
  {
    AllocOwned(l, fs, owner, loose, b);
    BitmapBlock(l, b);
    forall i: nat, bn: nat ensures BlockOf(Alloc(l, fs, b), i, bn) == BlockOf(fs, i, bn) {
      AllocAddr(l, fs, owner, loose, b, i, bn);
    }
  }

  lemma AllocAddr(l: Layout, fs: FS, owner: map<nat, Slot>, loose: set<nat>, b: nat, i: nat, bn: nat)
    requires Owned(l, fs, owner, loose) && b < l.size && !Used(l, fs.disk, b) && BBlock(l, b) < l.nmeta <= b
    requires b !in owner && SameNames(fs, Alloc(l, fs, b))
    ensures Addr(Alloc(l, fs, b), i, bn) == Addr(fs, i, bn)
    ensures BlockOf(Alloc(l, fs, b), i, bn) == BlockOf(fs, i, bn)
  {
    if Addr(fs, i, bn) != 0 {
      AddrOwned(l, fs, owner, loose, i, bn);
    }
  }

  lemma AttachAddr(l: Layout, fs: FS, owner: map<nat, Slot>, loose: set<nat>, s: Slot, b: word, i: nat, bn: nat)
    requires Owned(l, fs, owner, loose) && Attachable(fs, loose, s, b) && fs.disk[b] == Zero()
    ensures Addr(Attach(fs, s, b), i, bn) == if SlotOf(i, bn) == s then b else Addr(fs, i, bn)
    ensures BlockOf(Attach(fs, s, b), i, bn) == BlockOf(fs, i, bn)
  {
    var t := SlotOf(i, bn);
    if ValidSlot(fs, t) {
      AttachNames(l, fs, owner, loose, s, b, t);
    }
    if Addr(fs, i, bn) != 0 {
      AddrOwned(l, fs, owner, loose, i, bn);
    }
    if s.Entry? {
      assert ValidSlot(fs, Indirect(s.i)) && Names(fs, Indirect(s.i)) in owner;
    }
  }

  lemma AttachFiles(l: Layout, fs: FS, owner: map<nat, Slot>, loose: set<nat>, s: Slot, b: word)
    requires Owned(l, fs, owner, loose) && Attachable(fs, loose, s, b) && fs.disk[b] == Zero()
    ensures SameFiles(fs, Attach(fs, s, b))
  {
    forall i: nat, bn: nat ensures BlockOf(Attach(fs, s, b), i, bn) == BlockOf(fs, i, bn) {
      AttachAddr(l, fs, owner, loose, s, b, i, bn);
    }
  }

  /** New contents for a data block of file `i`. */
  ghost function WriteBlock(fs: FS, a: nat, data: Block): FS
    requires a < |fs.disk|
  {
    fs.(disk := fs.disk[a := data])
  }

  /** Writing block `bn` of inode `i` changes that block of that file and nothing else. */
  lemma WriteBlockOwned(l: Layout, fs: FS, owner: map<nat, Slot>, loose: set<nat>, i: nat, bn: nat, data: Block)
    requires Owned(l, fs, owner, loose) && Addr(fs, i, bn) != 0
    ensures Addr(fs, i, bn) < |fs.disk|
    ensures var fs2 := WriteBlock(fs, Addr(fs, i, bn), data);
            Owned(l, fs2, owner, loose) && SameNames(fs, fs2)
  {
    hide Used, Names;
    AddrOwned(l, fs, owner, loose, i, bn);
    var fs2 := WriteBlock(fs, Addr(fs, i, bn), data);
    NamesFrame(l, fs, owner, loose, fs2);
    SameNamesSym(fs, fs2);
    BitmapFrame(l, fs, Addr(fs, i, bn), data);
    Reowned(l, fs, owner, loose, fs2, loose);
  }

  lemma BitmapFrame(l: Layout, fs: FS, a: nat, data: Block)
    requires Sane(l, fs) && l.nmeta <= a < l.size
    ensures forall c: nat :: c < l.size ==> (Used(l, WriteBlock(fs, a, data).disk, c) <==> Used(l, fs.disk, c))
  {
    forall c: nat | c < l.size ensures Used(l, WriteBlock(fs, a, data).disk, c) <==> Used(l, fs.disk, c) {
      BitmapBlock(l, c);
    }
  }

  lemma WriteBlockFiles(l: Layout, fs: FS, owner: map<nat, Slot>, loose: set<nat>, i: nat, bn: nat, data: Block,
                        i2: nat, bn2: nat)
    requires Owned(l, fs, owner, loose) && Addr(fs, i, bn) != 0
    ensures Addr(fs, i, bn) < |fs.disk|
    ensures var fs2 := WriteBlock(fs, Addr(fs, i, bn), data);
            && Addr(fs2, i2, bn2) == Addr(fs, i2, bn2)
            && BlockOf(fs2, i2, bn2) == if i2 == i && bn2 == bn then data else BlockOf(fs, i2, bn2)
  {
    WriteBlockOwned(l, fs, owner, loose, i, bn, data);
    AddrOwned(l, fs, owner, loose, i, bn);
    if Addr(fs, i2, bn2) != 0 {
      AddrOwned(l, fs, owner, loose, i2, bn2);
    }
  }

  // ---------- bytes ----------

  ghost function ByteAt(fs: FS, i: nat, p: nat): byte {
    BlockOf(fs, i, p / BSIZE).data[p % BSIZE]
  }

  /** Byte `p` of inode `i` for `lo <= p < hi` aside, all bytes of all files are the same. */
  ghost predicate SameBytes(fs: FS, fs2: FS, i: nat, lo: nat, hi: nat) {
    forall i2: nat, p: nat :: i2 != i || !(lo <= p < hi) ==> ByteAt(fs2, i2, p) == ByteAt(fs, i2, p)
  }

  /** From byte `off` on, inode `i` holds `bytes`. */
  ghost predicate Holds(fs: FS, i: nat, off: nat, bytes: seq<byte>) {
    forall p: nat :: off <= p < off + |bytes| ==> ByteAt(fs, i, p) == bytes[p - off]
  }

  /** A block with `bytes` copied in at `at`. */
  function Patch(b: Block, at: nat, bytes: seq<byte>): (r: Block)
    requires at + |bytes| <= BSIZE
    ensures forall k :: 0 <= k < BSIZE ==> r.data[k] == if at <= k < at + |bytes| then bytes[k - at] else b.data[k]
  {
    RawBlock(b.data[..at] + bytes + b.data[at + |bytes|..])
  }

  lemma PatchIndex(o: nat, n: nat, p: nat)
    requires o % BSIZE + n <= BSIZE
    ensures p / BSIZE == o / BSIZE && o % BSIZE <= p % BSIZE < o % BSIZE + n <==> o <= p < o + n
    ensures o <= p < o + n ==> p % BSIZE - o % BSIZE == p - o
  {
  }

  /** Copying bytes into the block that holds offset `o` of a file changes those bytes only. */
  lemma PatchFile(l: Layout, fs: FS, owner: map<nat, Slot>, i: nat, o: nat, bytes: seq<byte>)
    requires Owned(l, fs, owner, {}) && Addr(fs, i, o / BSIZE) != 0 && o % BSIZE + |bytes| <= BSIZE
    ensures Addr(fs, i, o / BSIZE) < |fs.disk|
    ensures var a := Addr(fs, i, o / BSIZE);
            var fs2 := WriteBlock(fs, a, Patch(fs.disk[a], o % BSIZE, bytes));
            && Owned(l, fs2, owner, {})
            && (forall i2: nat, bn2: nat :: Addr(fs2, i2, bn2) == Addr(fs, i2, bn2))
            && SameBytes(fs, fs2, i, o, o + |bytes|) && Holds(fs2, i, o, bytes)
  {
    hide Owned, BlockOf, Names;
    AddrRange(l, fs, owner, {}, i, o / BSIZE);
    var a := Addr(fs, i, o / BSIZE);
    var data := Patch(fs.disk[a], o % BSIZE, bytes);
    WriteBlockOwned(l, fs, owner, {}, i, o / BSIZE, data);
    var fs2 := WriteBlock(fs, a, data);
    forall i2: nat, bn2: nat
      ensures Addr(fs2, i2, bn2) == Addr(fs, i2, bn2)
      ensures BlockOf(fs2, i2, bn2) == if i2 == i && bn2 == o / BSIZE then data else BlockOf(fs, i2, bn2)
    {
      WriteBlockFiles(l, fs, owner, {}, i, o / BSIZE, data, i2, bn2);
    }
    PatchedBytes(fs, fs2, i, o, bytes);
  }

  lemma PatchedBytes(fs: FS, fs2: FS, i: nat, o: nat, bytes: seq<byte>)
    requires 0 < Addr(fs, i, o / BSIZE) < |fs.disk| && o % BSIZE + |bytes| <= BSIZE
    requires forall i2: nat, bn2: nat :: BlockOf(fs2, i2, bn2) ==
               if i2 == i && bn2 == o / BSIZE then Patch(fs.disk[Addr(fs, i, o / BSIZE)], o % BSIZE, bytes) else BlockOf(fs, i2, bn2)
    ensures SameBytes(fs, fs2, i, o, o + |bytes|) && Holds(fs2, i, o, bytes)
  {
    assert BlockOf(fs, i, o / BSIZE) == fs.disk[Addr(fs, i, o / BSIZE)];
    hide BlockOf, Addr;
    forall i2: nat, p: nat ensures ByteAt(fs2, i2, p) == if i2 == i && o <= p < o + |bytes| then bytes[p - o] else ByteAt(fs, i2, p) {
      PatchIndex(o, |bytes|, p);
    }
  }

  // ---------- allocating a block into a slot ----------

  /** An empty slot that may receive a block. */
  ghost predicate Empty(fs: FS, s: Slot) {
    && ValidSlot(fs, s) && Names(fs, s) == 0
    && (s.Entry? ==> 0 < fs.inodes[s.i].addrs[NDIRECT] < |fs.disk|)
  }

  /** Block `b`, which is free, allocated and stored in slot `s`. */
  ghost function Grow(l: Layout, fs: FS, s: Slot, b: word): FS
    requires b < |fs.disk| && BBlock(l, b) < |fs.disk| && !Used(l, fs.disk, b) && Empty(fs, s)
  {
    Attach(Alloc(l, fs, b), s, b)
  }

  lemma GrowReady(l: Layout, fs: FS, owner: map<nat, Slot>, s: Slot, b: word)
    requires Owned(l, fs, owner, {}) && Empty(fs, s) && b < l.size && !Used(l, fs.disk, b)
    ensures b < |fs.disk| && BBlock(l, b) < |fs.disk|
    ensures Owned(l, Alloc(l, fs, b), owner, {b}) && SameNames(fs, Alloc(l, fs, b))
    ensures Attachable(Alloc(l, fs, b), {b}, s, b) && Alloc(l, fs, b).disk[b] == Zero()
  {
    AllocOwned(l, fs, owner, {}, b);
    hide Owned, Used;
  }

  lemma GrowOwned(l: Layout, fs: FS, owner: map<nat, Slot>, s: Slot, b: word)
    requires Owned(l, fs, owner, {}) && Empty(fs, s) && b < l.size && !Used(l, fs.disk, b)
    ensures b < |fs.disk| && BBlock(l, b) < |fs.disk| && Owned(l, Grow(l, fs, s, b), owner[b := s], {})
    ensures SameFiles(fs, Grow(l, fs, s, b))
  {
    hide Owned, Used, Attachable, SameNames, BlockOf;
    GrowReady(l, fs, owner, s, b);
    AttachOwned(l, Alloc(l, fs, b), owner, {b}, s, b);
    assert {b} - {b} == {};
    AllocFiles(l, fs, owner, {}, b);
    AttachFiles(l, Alloc(l, fs, b), owner, {b}, s, b);
  }

  lemma GrowAddr(l: Layout, fs: FS, owner: map<nat, Slot>, s: Slot, b: word, i: nat, bn: nat)
    requires Owned(l, fs, owner, {}) && Empty(fs, s) && b < l.size && !Used(l, fs.disk, b)
    ensures b < |fs.disk| && BBlock(l, b) < |fs.disk|
    ensures Addr(Grow(l, fs, s, b), i, bn) == if SlotOf(i, bn) == s then b else Addr(fs, i, bn)
  {
    hide Owned, Used, Attachable, BlockOf, Names;
    GrowReady(l, fs, owner, s, b);
    AttachAddr(l, Alloc(l, fs, b), owner, {b}, s, b, i, bn);
  }

  lemma GrowAddrs(l: Layout, fs: FS, owner: map<nat, Slot>, s: Slot, b: word)
    requires Owned(l, fs, owner, {}) && Empty(fs, s) && b < l.size && !Used(l, fs.disk, b)
    ensures b < |fs.disk| && BBlock(l, b) < |fs.disk|
    ensures forall i: nat, bn: nat :: Addr(Grow(l, fs, s, b), i, bn) == if SlotOf(i, bn) == s then b else Addr(fs, i, bn)
    ensures var r := Grow(l, fs, s, b).inodes;
            && SameSizes(fs.inodes, r)
            && (forall i :: 0 <= i < |r| ==>
                  |r[i].addrs| == |fs.inodes[i].addrs| == NDIRECT + 1
                  && r[i].addrs[NDIRECT] == if s == Indirect(i) then b else fs.inodes[i].addrs[NDIRECT])
  {
    Shapes(l, fs, owner, {});
    GrowReady(l, fs, owner, s, b);
    hide Owned, Used, Names, Addr;
    forall i: nat, bn: nat
      ensures Addr(Grow(l, fs, s, b), i, bn) == if SlotOf(i, bn) == s then b else Addr(fs, i, bn)
    {
      GrowAddr(l, fs, owner, s, b, i, bn);
    }
  }

  // ---------- the kernel's operations ----------

  lemma Shapes(l: Layout, fs: FS, owner: map<nat, Slot>, loose: set<nat>)
    requires Owned(l, fs, owner, loose)
    ensures |fs.disk| == l.size <= 0x1_0000_0000 && Used(l, fs.disk, 0) && 0 < l.nmeta && Sane(l, fs)
    ensures forall i :: 0 <= i < |fs.inodes| ==>
              |fs.inodes[i].addrs| == NDIRECT + 1
              && (fs.inodes[i].addrs[NDIRECT] != 0 ==> l.nmeta <= fs.inodes[i].addrs[NDIRECT] < l.size)
  {
    forall i | 0 <= i < |fs.inodes|
      ensures fs.inodes[i].addrs[NDIRECT] != 0 ==> l.nmeta <= fs.inodes[i].addrs[NDIRECT] < l.size
    {
      assert ValidSlot(fs, Indirect(i));
    }
  }

  lemma AddrRange(l: Layout, fs: FS, owner: map<nat, Slot>, loose: set<nat>, i: nat, bn: nat)
    requires Owned(l, fs, owner, loose)
    ensures Addr(fs, i, bn) != 0 ==> l.nmeta <= Addr(fs, i, bn) < |fs.disk|
  {
  }

  lemma EmptyAddr(fs: FS, s: Slot)
    requires Empty(fs, s)
    ensures forall i: nat, bn: nat :: SlotOf(i, bn) == s ==> Addr(fs, i, bn) == 0
  {
  }

  ghost predicate SameSizes(a: seq<Inode>, b: seq<Inode>) {
    |a| == |b| && forall i :: 0 <= i < |a| ==> a[i].size == b[i].size
  }

  /** Every block of every file but block `bn` of inode `i` is where it was. */
  ghost predicate OthersKept(fs: FS, fs2: FS, i: nat, bn: nat) {
    forall i2: nat, bn2: nat :: i2 != i || bn2 != bn ==> Addr(fs2, i2, bn2) == Addr(fs, i2, bn2)
  }

  /** The indirect block of inode `i` and the bitmap block that covers it. */
  ghost function ThroughIndirect(l: Layout, fs: FS, i: nat): (s: set<nat>)
    ensures |s| <= 2
  {
    if i < |fs.inodes| && |fs.inodes[i].addrs| == NDIRECT + 1 && fs.inodes[i].addrs[NDIRECT] != 0
    then {fs.inodes[i].addrs[NDIRECT], BBlock(l, fs.inodes[i].addrs[NDIRECT])} else {}
  }

  /** Every block below a file's size is allocated, and no file is larger than the block map. */
  ghost predicate Solid(fs: FS) {
    && (forall i: nat, bn: nat :: i < |fs.inodes| && bn * BSIZE < fs.inodes[i].size ==> Addr(fs, i, bn) != 0)
    && (forall i :: 0 <= i < |fs.inodes| ==> fs.inodes[i].size <= MAXFILE * BSIZE)
  }

  /** Blocks may have been added to files; none has moved. */
  ghost predicate MoreAddrs(fs: FS, fs2: FS) {
    forall i: nat, bn: nat :: Addr(fs, i, bn) != 0 ==> Addr(fs2, i, bn) == Addr(fs, i, bn)
  }

  lemma KeptMore(fs: FS, fs2: FS, i: nat, bn: nat)
    requires OthersKept(fs, fs2, i, bn) && (Addr(fs, i, bn) != 0 ==> Addr(fs2, i, bn) == Addr(fs, i, bn))
    ensures MoreAddrs(fs, fs2)
  {
  }

  lemma SameFilesBytes(fs: FS, fs2: FS, i: nat, o: nat)
    requires SameFiles(fs, fs2)
    ensures SameBytes(fs, fs2, i, o, o)
  {
    hide BlockOf;
  }

  lemma SameBytesTrans(a: FS, b: FS, c: FS, i: nat, lo: nat, mid: nat, hi: nat)
    requires SameBytes(a, b, i, lo, mid) && SameBytes(b, c, i, mid, hi) && lo <= mid <= hi
    ensures SameBytes(a, c, i, lo, hi)
  {
    hide ByteAt;
  }

  lemma HoldsMore(b: FS, c: FS, i: nat, lo: nat, mid: nat, hi: nat, x: seq<byte>, y: seq<byte>)
    requires Holds(b, i, lo, x) && lo + |x| == mid && SameBytes(b, c, i, mid, hi) && Holds(c, i, mid, y)
    ensures Holds(c, i, lo, x + y)
  {
    hide ByteAt;
  }

  /** Copying into the block at offset `o`, after `bmap` has seen to it that there is one. */
  lemma PatchMapped(l: Layout, fs: FS, fs1: FS, owner: map<nat, Slot>, i: nat, o: nat, bytes: seq<byte>)
    requires SameFiles(fs, fs1) && OthersKept(fs, fs1, i, o / BSIZE)
    requires Addr(fs, i, o / BSIZE) != 0 ==> Addr(fs1, i, o / BSIZE) == Addr(fs, i, o / BSIZE)
    requires Owned(l, fs1, owner, {}) && Addr(fs1, i, o / BSIZE) != 0 && o % BSIZE + |bytes| <= BSIZE
    ensures Addr(fs1, i, o / BSIZE) < |fs1.disk|
    ensures var a := Addr(fs1, i, o / BSIZE);
            var fs2 := WriteBlock(fs1, a, Patch(fs1.disk[a], o % BSIZE, bytes));
            && Owned(l, fs2, owner, {}) && MoreAddrs(fs, fs2) && Addr(fs2, i, o / BSIZE) == a
            && SameBytes(fs, fs2, i, o, o + |bytes|) && Holds(fs2, i, o, bytes)
            && ThroughIndirect(l, fs2, i) == ThroughIndirect(l, fs1, i)
  {
    hide Owned, BlockOf, ByteAt, Names, Holds;
    PatchFile(l, fs1, owner, i, o, bytes);
    SameFilesBytes(fs, fs1, i, o);
    KeptMore(fs, fs1, i, o / BSIZE);
    var a := Addr(fs1, i, o / BSIZE);
    SameBytesTrans(fs, fs1, WriteBlock(fs1, a, Patch(fs1.disk[a], o % BSIZE, bytes)), i, o, o, o + |bytes|);
  }

  // ---------- files as byte strings ----------

  ghost function Bytes(fs: FS, i: nat, off: nat, n: nat): (r: seq<byte>)
    ensures |r| == n && forall k :: 0 <= k < n ==> r[k] == ByteAt(fs, i, off + k)
  {
    if n == 0 then [] else Bytes(fs, i, off, n - 1) + [ByteAt(fs, i, off + n - 1)]
  }

  ghost function Content(fs: FS, i: nat): seq<byte>
    requires i < |fs.inodes|
  {
    Bytes(fs, i, 0, fs.inodes[i].size)
  }

  function Overlay(s: seq<byte>, off: nat, t: seq<byte>): seq<byte>
    requires off <= |s|
  {
    s[..off] + t + if off + |t| < |s| then s[off + |t|..] else []
  }

  /** What `writei` does to the bytes and the size of a file, as an operation on strings:
      the written string replaces that part of the file, and every other file is untouched. */
  lemma WriteIsOverlay(fs0: FS, fs: FS, i: nat, off: nat, bytes: seq<byte>, j: nat)
    requires |fs0.inodes| == |fs.inodes| && i < |fs.inodes| && j < |fs.inodes| && off <= fs0.inodes[i].size
    requires SameBytes(fs0, fs, i, off, off + |bytes|) && Holds(fs, i, off, bytes)
    requires fs.inodes[j].size == if j == i && off + |bytes| > fs0.inodes[i].size then off + |bytes| else fs0.inodes[j].size
    ensures Content(fs, j) == if j == i then Overlay(Content(fs0, i), off, bytes) else Content(fs0, j)
  {
    hide ByteAt;
    var want := if j == i then Overlay(Content(fs0, i), off, bytes) else Content(fs0, j);
    forall p | 0 <= p < |want| ensures Content(fs, j)[p] == want[p] {
      assert Content(fs, j)[p] == ByteAt(fs, j, 0 + p);
      assert p < |Content(fs0, j)| ==> Content(fs0, j)[p] == ByteAt(fs0, j, 0 + p);
    }
  }

  /** How one round of the copying loop in `writei` ends. */
  datatype Outcome = Full | Fault | Copied

  /** The blocks of inode `i` from the one at offset `lo` up to offset `hi` are allocated. */
  ghost predicate Mapped(fs: FS, i: nat, lo: nat, hi: nat) {
    forall bn: nat :: lo / BSIZE <= bn && bn * BSIZE < hi ==> Addr(fs, i, bn) != 0
  }

  lemma MappedMore(fs: FS, fs2: FS, i: nat, lo: nat, o: nat, hi: nat)
    requires Mapped(fs, i, lo, o) && MoreAddrs(fs, fs2) && Addr(fs2, i, o / BSIZE) != 0
    requires lo <= o <= hi <= (o / BSIZE + 1) * BSIZE
    ensures Mapped(fs2, i, lo, hi)
  {
    forall bn: nat | lo / BSIZE <= bn && bn * BSIZE < hi ensures Addr(fs2, i, bn) != 0 {
      assert bn == o / BSIZE || bn * BSIZE < o;
      assert Addr(fs, i, bn) != 0 || bn == o / BSIZE;
    }
  }

  lemma MoreTrans(a: FS, b: FS, c: FS)
    requires MoreAddrs(a, b) && MoreAddrs(b, c)
    ensures MoreAddrs(a, c)
  {
    hide Addr;
  }

  lemma MoreSame(fs: FS)
    ensures MoreAddrs(fs, fs)
  {
  }

  lemma SizesTrans(a: seq<Inode>, b: seq<Inode>, c: seq<Inode>)
    requires SameSizes(a, b) && SameSizes(b, c)
    ensures SameSizes(a, c)
  {
  }

  ghost function WithSize(fs: FS, i: nat, size: nat): FS
    requires i < |fs.inodes|
  {
    fs.(inodes := fs.inodes[i := fs.inodes[i].(size := size)])
  }

  /** A file may be extended to cover blocks that are all there. */
  lemma ResizeSolid(fs0: FS, fs: FS, i: nat, lo: nat, o: nat)
    requires Solid(fs0) && SameSizes(fs0.inodes, fs.inodes) && MoreAddrs(fs0, fs) && i < |fs.inodes|
    requires lo <= fs0.inodes[i].size && Mapped(fs, i, lo, o) && o <= MAXFILE * BSIZE
    ensures Solid(WithSize(fs, i, if o > fs.inodes[i].size then o else fs.inodes[i].size))
  {
    var fs2 := WithSize(fs, i, if o > fs.inodes[i].size then o else fs.inodes[i].size);
    forall i2: nat, bn: nat | i2 < |fs2.inodes| && bn * BSIZE < fs2.inodes[i2].size ensures Addr(fs2, i2, bn) != 0 {
      ResizeAddr(fs, i, fs2.inodes[i].size, i2, bn);
      assert Addr(fs0, i2, bn) != 0 || lo <= bn * BSIZE;
    }
  }

  lemma WithSameSize(fs: FS, i: nat)
    requires i < |fs.inodes|
    ensures WithSize(fs, i, fs.inodes[i].size) == fs
  {
    assert fs.inodes[i].(size := fs.inodes[i].size) == fs.inodes[i];
  }

  lemma ResizeAddr(fs: FS, i: nat, size: nat, i2: nat, bn: nat)
    requires i < |fs.inodes|
    ensures Addr(WithSize(fs, i, size), i2, bn) == Addr(fs, i2, bn)
    ensures BlockOf(WithSize(fs, i, size), i2, bn) == BlockOf(fs, i2, bn)
  {
  }

  lemma ResizeOwned(l: Layout, fs: FS, owner: map<nat, Slot>, i: nat, size: nat)
    requires Owned(l, fs, owner, {}) && i < |fs.inodes|
    ensures Owned(l, WithSize(fs, i, size), owner, {})
  {
    var fs2 := WithSize(fs, i, size);
    assert forall s :: ValidSlot(fs2, s) <==> ValidSlot(fs, s);
    assert forall s :: ValidSlot(fs, s) ==> Names(fs2, s) == Names(fs, s);
  }

  lemma ResizeBytes(fs: FS, i: nat, size: nat)
    requires i < |fs.inodes|
    ensures SameFiles(fs, WithSize(fs, i, size)) && MoreAddrs(fs, WithSize(fs, i, size))
  {
    forall i2: nat, bn: nat ensures BlockOf(WithSize(fs, i, size), i2, bn) == BlockOf(fs, i2, bn) {
      ResizeAddr(fs, i, size, i2, bn);
    }
    forall i2: nat, bn: nat ensures Addr(WithSize(fs, i, size), i2, bn) == Addr(fs, i2, bn) {
      ResizeAddr(fs, i, size, i2, bn);
    }
  }

  /** `tot` bytes of `src` written at `off`, on blocks that are all there, and `dirty` bytes
      changed (more than `tot` only if a copy faulted half way). */
  ghost predicate Wrote(fs0: FS, fs: FS, i: nat, off: nat, src: seq<byte>, tot: nat, dirty: nat) {
    && tot <= dirty <= |src|
    && SameSizes(fs0.inodes, fs.inodes) && MoreAddrs(fs0, fs) && Mapped(fs, i, off, off + tot)
    && SameBytes(fs0, fs, i, off, off + dirty) && Holds(fs, i, off, src[..dirty])
  }

  lemma WroteNothing(fs: FS, i: nat, off: nat, src: seq<byte>)
    requires off % BSIZE != 0 ==> Addr(fs, i, off / BSIZE) != 0
    ensures Wrote(fs, fs, i, off, src, 0, 0)
  {
    forall bn: nat | off / BSIZE <= bn && bn * BSIZE < off ensures Addr(fs, i, bn) != 0 {
      assert bn == off / BSIZE;
    }
  }

  lemma WroteMore(fs0: FS, fs1: FS, fs: FS, i: nat, off: nat, src: seq<byte>, tot: nat, m: nat, got: nat)
    requires Wrote(fs0, fs1, i, off, src, tot, tot) && got <= m && tot + m <= |src|
    requires SameSizes(fs1.inodes, fs.inodes) && MoreAddrs(fs1, fs) && Addr(fs, i, (off + tot) / BSIZE) != 0
    requires SameBytes(fs1, fs, i, off + tot, off + tot + got) && Holds(fs, i, off + tot, src[tot..tot + m][..got])
    requires (off + tot) % BSIZE + m <= BSIZE
    ensures Wrote(fs0, fs, i, off, src, if got == m then tot + m else tot, tot + got)
  {
    hide ByteAt, Addr;
    SizesTrans(fs0.inodes, fs1.inodes, fs.inodes);
    MoreTrans(fs0, fs1, fs);
    MappedMore(fs1, fs, i, off, off + tot, if got == m then off + tot + m else off + tot);
    SameBytesTrans(fs0, fs1, fs, i, off, off + tot, off + tot + got);
    HoldsMore(fs1, fs, i, off, off + tot, off + tot + got, src[..tot], src[tot..tot + m][..got]);
    assert src[..tot] + src[tot..tot + m][..got] == src[..tot + got];
  }

  lemma WroteNoMore(fs0: FS, fs1: FS, fs: FS, i: nat, off: nat, src: seq<byte>, tot: nat)
    requires Wrote(fs0, fs1, i, off, src, tot, tot)
    requires SameSizes(fs1.inodes, fs.inodes) && MoreAddrs(fs1, fs) && SameBytes(fs1, fs, i, off + tot, off + tot)
    ensures Wrote(fs0, fs, i, off, src, tot, tot)
  {
    hide ByteAt, Addr;
    SizesTrans(fs0.inodes, fs1.inodes, fs.inodes);
    MoreTrans(fs0, fs1, fs);
    SameBytesTrans(fs0, fs1, fs, i, off, off + tot, off + tot);
    assert src[..tot] + [] == src[..tot];
    HoldsMore(fs1, fs, i, off, off + tot, off + tot, src[..tot], []);
  }

  /** The size update that ends `writei`. */
  lemma WroteResize(l: Layout, fs0: FS, fs: FS, owner: map<nat, Slot>, i: nat, off: nat, src: seq<byte>, tot: nat,
      dirty: nat)
    requires Solid(fs0) && Owned(l, fs, owner, {}) && i < |fs.inodes|
    requires Wrote(fs0, fs, i, off, src, tot, dirty) && off <= fs0.inodes[i].size && off + tot <= MAXFILE * BSIZE
    ensures var fs2 := WithSize(fs, i, if off + tot > fs.inodes[i].size then off + tot else fs.inodes[i].size);
            && Owned(l, fs2, owner, {}) && Solid(fs2) && tot <= dirty && |fs2.inodes| == |fs0.inodes|
            && fs.inodes[i].size == fs0.inodes[i].size
            && (forall k :: 0 <= k < |fs2.inodes| && k != i ==> fs2.inodes[k].size == fs0.inodes[k].size)
            && (forall c: nat :: Used(l, fs2.disk, c) <==> Used(l, fs.disk, c))
            && SameBytes(fs0, fs2, i, off, off + dirty) && Holds(fs2, i, off, src[..dirty])
            && MoreAddrs(fs0, fs2) && MoreAddrs(fs, fs2) && Mapped(fs, i, off, off + tot)
  {
    hide Owned, ByteAt, Addr, BlockOf;
    var size := if off + tot > fs.inodes[i].size then off + tot else fs.inodes[i].size;
    var fs2 := WithSize(fs, i, size);
    ResizeOwned(l, fs, owner, i, size);
    ResizeSolid(fs0, fs, i, off, off + tot);
    ResizeBytes(fs, i, size);
    SameFilesBytes(fs, fs2, i, off + dirty);
    SameBytesTrans(fs0, fs, fs2, i, off, off + dirty, off + dirty);
    assert src[..dirty] + [] == src[..dirty];
    HoldsMore(fs, fs2, i, off, off + dirty, off + dirty, src[..dirty], []);
    MoreTrans(fs0, fs, fs2);
  }

  /** Number of blocks that bytes `off` to `off + n` touch. */
  function Spread(off: nat, n: nat): nat {
    if n == 0 then 0 else (off + n - 1) / BSIZE - off / BSIZE + 1
  }

  /** The round number `it` of the loop works on block number `off / BSIZE + it`. */
  ghost predicate Round(off: nat, n: nat, tot: nat, it: nat) {
    && tot <= n
    && (tot == 0 ==> it == 0)
    && (0 < tot < n ==> off + tot == (off / BSIZE + it) * BSIZE)
    && (0 < tot ==> it <= Spread(off, n))
  }

  lemma FirstRound(off: nat, n: nat)
    ensures Round(off, n, 0, 0)
  {
  }

  lemma NextRound(off: nat, n: nat, tot: nat, it: nat)
    requires Round(off, n, tot, it) && tot < n
    ensures it + 1 <= Spread(off, n) && (off + tot) / BSIZE == off / BSIZE + it
    ensures var left, room := n - tot, BSIZE - (off + tot) % BSIZE;
            Round(off, n, tot + if left < room then left else room, it + 1)
  {
  }

  lemma AtMost(a: set<nat>, b: set<nat>, c: set<nat>, d: set<nat>, r: set<nat>)
    requires r <= a + b + c + d
    ensures |r| <= |a| + |b| + |c| + |d|
  {
    SubsetSize(r, a + b + c + d);
    UnionSize(a + b + c, d);
    UnionSize(a + b, c);
    UnionSize(a, b);
  }

  /** After `it` rounds the log has grown by at most a data block and a bitmap block per
      round, and the blocks in `t`; if `saved`, the first round needed no bitmap block. */
  ghost predicate Accounted(l0: set<nat>, log: set<nat>, t: set<nat>, it: nat, saved: bool) {
    exists data: set<nat>, maps: set<nat> :: Account(l0, log, t, it, saved, data, maps)
  }

  ghost predicate Account(l0: set<nat>, log: set<nat>, t: set<nat>, it: nat, saved: bool, data: set<nat>,
      maps: set<nat>) {
    && log <= l0 + data + maps + t
    && |data| <= it && |maps| + (if saved && it > 0 then 1 else 0) <= it
  }

  lemma AccountStart(l0: set<nat>, t: set<nat>, saved: bool)
    ensures Accounted(l0, l0, t, 0, saved)
  {
    assert Account(l0, l0, t, 0, saved, {}, {});
  }

  lemma AccountNext(l0: set<nat>, log: set<nat>, t: set<nat>, it: nat, saved: bool,
                    a: nat, added: set<nat>, t2: set<nat>, log2: set<nat>)
    requires Accounted(l0, log, t, it, saved) && log2 <= log + {a} + t2 + added && t <= t2
    requires |added| <= 1 && (it == 0 && saved ==> added == {})
    ensures Accounted(l0, log2, t2, it + 1, saved)
  {
    var data: set<nat>, maps: set<nat> :| Account(l0, log, t, it, saved, data, maps);
    UnionSize(data, {a});
    UnionSize(maps, added);
    assert Account(l0, log2, t2, it + 1, saved, data + {a}, maps + added);
  }

  lemma AccountTotal(l0: set<nat>, log: set<nat>, t: set<nat>, it: nat, saved: bool)
    requires Accounted(l0, log, t, it, saved) && |t| <= 2
    ensures |log| <= |l0| + 2 * it + 2 - if saved && it > 0 then 1 else 0
  {
    var data: set<nat>, maps: set<nat> :| Account(l0, log, t, it, saved, data, maps);
    AtMost(l0, data, maps, t, log);
  }

  lemma UnionSize(a: set<nat>, b: set<nat>)
    ensures |a + b| <= |a| + |b|
  {
    assert |a + b| == |a| + |b| - |a * b|;
  }

  lemma SubsetSize(a: set<nat>, b: set<nat>)
    requires a <= b
    ensures |a| <= |b|
  {
    assert |b| == |a| + |b - a| by { assert a + (b - a) == b; }
  }

  /** A write that starts inside a block starts in a block the file already has. */
  lemma FirstBlock(fs: FS, i: nat, off: nat)
    requires Solid(fs) && i < |fs.inodes| && off <= fs.inodes[i].size
    ensures off % BSIZE != 0 ==> Addr(fs, i, off / BSIZE) != 0
  {
  }

  lemma BelowSize(fs: FS, i: nat, o: nat)
    requires Solid(fs) && i < |fs.inodes| && o < fs.inodes[i].size
    ensures Addr(fs, i, o / BSIZE) != 0 && o / BSIZE < MAXFILE
  {
  }

  lemma BytesNext(fs: FS, i: nat, off: nat, tot: nat, m: nat)
    requires var o := off + tot; 0 < Addr(fs, i, o / BSIZE) < |fs.disk| && o % BSIZE + m <= BSIZE
    ensures var o := off + tot;
            Bytes(fs, i, off, tot + m)
            == Bytes(fs, i, off, tot) + fs.disk[Addr(fs, i, o / BSIZE)].data[o % BSIZE..o % BSIZE + m]
  {
    hide BlockOf, Addr, Bytes, ByteAt;
    BlockThere(fs, i, (off + tot) / BSIZE);
    BytesSplit(fs, i, off, tot, m);
    BytesWithin(fs, i, off + tot, m);
  }

  lemma BlockThere(fs: FS, i: nat, bn: nat)
    requires 0 < Addr(fs, i, bn) < |fs.disk|
    ensures BlockOf(fs, i, bn) == fs.disk[Addr(fs, i, bn)]
  {
  }

  lemma {:induction false} BytesWithin(fs: FS, i: nat, o: nat, m: nat)
    requires o % BSIZE + m <= BSIZE
    ensures Bytes(fs, i, o, m) == BlockOf(fs, i, o / BSIZE).data[o % BSIZE..o % BSIZE + m]
  {
    hide BlockOf;
    if m > 0 {
      BytesWithin(fs, i, o, m - 1);
      PatchIndex(o, m, o + m - 1);
    }
  }

  lemma {:induction false} BytesSplit(fs: FS, i: nat, off: nat, a: nat, b: nat)
    ensures Bytes(fs, i, off, a + b) == Bytes(fs, i, off, a) + Bytes(fs, i, off + a, b)
  {
    hide ByteAt;
    if b > 0 {
      BytesSplit(fs, i, off, a, b - 1);
    }
  }

  // ---------- what allocation leaves in the log ----------

  /** Going from `d` to `d2` no block was freed, and every block allocated is logged together
      with its bitmap block, and was the lowest one free. */
  ghost predicate Trail(l: Layout, d: seq<Block>, d2: seq<Block>, logged: set<nat>) {
    && (forall c: nat :: c < l.size && Used(l, d, c) ==> Used(l, d2, c))
    && (forall c: nat :: c < l.size && Used(l, d2, c) && !Used(l, d, c) ==> c in logged && BBlock(l, c) in logged)
    && (forall c: nat, e: nat :: e < c < l.size && Used(l, d2, c) && !Used(l, d, c) ==> Used(l, d2, e))
  }

  lemma TrailSame(l: Layout, d: seq<Block>, d2: seq<Block>, logged: set<nat>)
    requires forall c: nat :: c < l.size ==> (Used(l, d2, c) <==> Used(l, d, c))
    ensures Trail(l, d, d2, logged)
  {
    hide Used;
  }

  lemma TrailTrans(l: Layout, a: seq<Block>, b: seq<Block>, c: seq<Block>, log1: set<nat>, log2: set<nat>)
    requires Trail(l, a, b, log1) && Trail(l, b, c, log2) && log1 <= log2
    ensures Trail(l, a, c, log2)
  {
    hide Used;
  }

  lemma GrowTrail(l: Layout, fs: FS, owner: map<nat, Slot>, s: Slot, b: word, logged: set<nat>)
    requires Owned(l, fs, owner, {}) && Empty(fs, s) && b < l.size && !Used(l, fs.disk, b)
    requires b in logged && BBlock(l, b) in logged && forall c: nat :: c < b ==> Used(l, fs.disk, c)
    ensures b < |fs.disk| && BBlock(l, b) < |fs.disk| && Trail(l, fs.disk, Grow(l, fs, s, b).disk, logged)
  {
    hide Used, Attachable, Names;
    GrowReady(l, fs, owner, s, b);
    AllocOwned(l, fs, owner, {}, b);
    AllocUsed(l, fs, b);
    AttachSane(l, Alloc(l, fs, b), owner, {b}, s, b);
    hide Owned, Alloc, Attach;
  }

  /** A data block rewritten. */
  lemma WriteTrail(l: Layout, fs0: FS, fs: FS, owner: map<nat, Slot>, a: nat, data: Block, logged: set<nat>, logged2: set<nat>)
    requires Owned(l, fs, owner, {}) && l.nmeta <= a < |fs.disk| && Trail(l, fs0.disk, fs.disk, logged) && logged <= logged2
    ensures Trail(l, fs0.disk, WriteBlock(fs, a, data).disk, logged2)
  {
    hide Used, Names;
    BitmapFrame(l, fs, a, data);
    TrailSame(l, fs.disk, WriteBlock(fs, a, data).disk, logged2);
    TrailTrans(l, fs0.disk, fs.disk, WriteBlock(fs, a, data).disk, logged, logged2);
  }

  /** The blocks of inode `i` that bytes `lo` to `hi` touch are logged. */
  ghost predicate DataLogged(fs: FS, i: nat, lo: nat, hi: nat, logged: set<nat>) {
    lo < hi ==> forall bn: nat :: lo / BSIZE <= bn && bn * BSIZE < hi ==> Addr(fs, i, bn) in logged
  }

  lemma DataKept(fs1: FS, fs2: FS, i: nat, lo: nat, hi: nat, log1: set<nat>, log2: set<nat>)
    requires DataLogged(fs1, i, lo, hi, log1) && Mapped(fs1, i, lo, hi) && MoreAddrs(fs1, fs2) && log1 <= log2
    ensures DataLogged(fs2, i, lo, hi, log2)
  {
    hide Addr;
  }

  lemma NoDataLogged(fs: FS, i: nat, lo: nat, logged: set<nat>)
    ensures DataLogged(fs, i, lo, lo, logged)
  {
  }

  lemma DataMore(fs1: FS, fs2: FS, i: nat, lo: nat, o: nat, hi: nat, log1: set<nat>, log2: set<nat>)
    requires DataLogged(fs1, i, lo, o, log1) && Mapped(fs1, i, lo, o) && MoreAddrs(fs1, fs2) && log1 <= log2
    requires Addr(fs2, i, o / BSIZE) in log2 && lo <= o <= hi <= (o / BSIZE + 1) * BSIZE
    ensures DataLogged(fs2, i, lo, hi, log2)
  {
    hide Addr;
    forall bn: nat | lo / BSIZE <= bn && bn * BSIZE < hi ensures Addr(fs2, i, bn) in log2 {
      assert bn == o / BSIZE || bn * BSIZE < o;
    }
  }

  /** Progress of the copying loop in the log: every allocation and every block of data written
      since `fs0` is there. */
  ghost predicate Recorded(l: Layout, fs0: FS, log0: set<nat>, fs: FS, log: set<nat>, i: nat, lo: nat, hi: nat) {
    log0 <= log && Trail(l, fs0.disk, fs.disk, log) && DataLogged(fs, i, lo, hi, log)
  }

  lemma RecordedNothing(l: Layout, fs: FS, log: set<nat>, i: nat, lo: nat)
    ensures Recorded(l, fs, log, fs, log, i, lo, lo)
  {
    TrailSame(l, fs.disk, fs.disk, log);
    NoDataLogged(fs, i, lo, log);
  }

  lemma RecordedMore(l: Layout, fs0: FS, log0: set<nat>, fs1: FS, log1: set<nat>, fs: FS, log: set<nat>, i: nat, off: nat,
                     src: seq<byte>, tot: nat, m: nat)
    requires Recorded(l, fs0, log0, fs1, log1, i, off, off + tot) && Wrote(fs0, fs1, i, off, src, tot, tot)
    requires log1 <= log && Trail(l, fs1.disk, fs.disk, log) && MoreAddrs(fs1, fs)
    requires m > 0 ==> Addr(fs, i, (off + tot) / BSIZE) in log && (off + tot) % BSIZE + m <= BSIZE
    ensures Recorded(l, fs0, log0, fs, log, i, off, off + tot + m)
  {
    hide Trail, DataLogged, MoreAddrs, Mapped, Addr, Wrote;
    TrailTrans(l, fs0.disk, fs1.disk, fs.disk, log1, log);
    WroteMapped(fs0, fs1, i, off, src, tot, tot);
    if m > 0 {
      DataMore(fs1, fs, i, off, off + tot, off + tot + m, log1, log);
    } else {
      DataKept(fs1, fs, i, off, off + tot, log1, log);
    }
  }

  /** The copying loop after `it` rounds, with `tot` of `n` bytes written. */
  ghost predicate Copying(l: Layout, fs0: FS, log0: set<nat>, fs: FS, log: set<nat>, i: nat, off: nat, src: seq<byte>,
                          n: nat, tot: nat, it: nat) {
    && tot <= n <= |src| && it <= Spread(off, n) && Round(off, n, tot, it)
    && Wrote(fs0, fs, i, off, src, tot, tot) && (it == 0 ==> tot == 0 && fs == fs0)
    && Accounted(log0, log, ThroughIndirect(l, fs, i), it, off % BSIZE != 0)
    && Recorded(l, fs0, log0, fs, log, i, off, off + tot)
  }

  lemma CopyStarts(l: Layout, fs: FS, log: set<nat>, i: nat, off: nat, src: seq<byte>, n: nat)
    requires n <= |src| && (off % BSIZE != 0 ==> Addr(fs, i, off / BSIZE) != 0)
    ensures Copying(l, fs, log, fs, log, i, off, src, n, 0, 0)
  {
    hide Addr, Wrote, ThroughIndirect, Accounted, Recorded;
    AccountStart(log, ThroughIndirect(l, fs, i), off % BSIZE != 0);
    WroteNothing(fs, i, off, src);
    FirstRound(off, n);
    RecordedNothing(l, fs, log, i, off);
  }

  /** What a round must have done to the log. */
  ghost predicate RoundLogged(l: Layout, fs1: FS, log1: set<nat>, fs: FS, log: set<nat>, i: nat, bn: nat) {
    && log1 <= log && Trail(l, fs1.disk, fs.disk, log) && MoreAddrs(fs1, fs)
    && ThroughIndirect(l, fs1, i) <= ThroughIndirect(l, fs, i)
    && log <= log1 + {Addr(fs, i, bn)} + ThroughIndirect(l, fs, i) + if Addr(fs1, i, bn) == 0 then {BBlock(l, Addr(fs, i, bn))} else {}
  }

  lemma RoundAccounted(l: Layout, fs0: FS, log0: set<nat>, fs1: FS, log1: set<nat>, fs: FS, log: set<nat>, i: nat, off: nat,
                       src: seq<byte>, n: nat, tot: nat, it: nat)
    requires Copying(l, fs0, log0, fs1, log1, i, off, src, n, tot, it) && tot < n
    requires RoundLogged(l, fs1, log1, fs, log, i, (off + tot) / BSIZE)
    requires off % BSIZE != 0 ==> Addr(fs0, i, off / BSIZE) != 0
    ensures Accounted(log0, log, ThroughIndirect(l, fs, i), it + 1, off % BSIZE != 0) && it + 1 <= Spread(off, n)
  {
    hide Addr, Wrote, ThroughIndirect, Accounted, Recorded, Trail, MoreAddrs, Spread;
    NextRound(off, n, tot, it);
    var bn := (off + tot) / BSIZE;
    AccountNext(log0, log1, ThroughIndirect(l, fs1, i), it, off % BSIZE != 0, Addr(fs, i, bn),
                if Addr(fs1, i, bn) == 0 then {BBlock(l, Addr(fs, i, bn))} else {}, ThroughIndirect(l, fs, i), log);
  }

  lemma CopyAdvances(l: Layout, fs0: FS, log0: set<nat>, fs1: FS, log1: set<nat>, fs: FS, log: set<nat>, i: nat, off: nat,
                     src: seq<byte>, n: nat, tot: nat, it: nat, m: nat)
    requires Copying(l, fs0, log0, fs1, log1, i, off, src, n, tot, it) && tot < n
    requires RoundLogged(l, fs1, log1, fs, log, i, (off + tot) / BSIZE) && Addr(fs, i, (off + tot) / BSIZE) in log
    requires off % BSIZE != 0 ==> Addr(fs0, i, off / BSIZE) != 0
    requires m == (if n - tot < BSIZE - (off + tot) % BSIZE then n - tot else BSIZE - (off + tot) % BSIZE)
    requires Wrote(fs0, fs, i, off, src, tot + m, tot + m)
    ensures Copying(l, fs0, log0, fs, log, i, off, src, n, tot + m, it + 1)
  {
    hide Addr, Wrote, ThroughIndirect, Accounted, Recorded, Trail, MoreAddrs, Spread;
    NextRound(off, n, tot, it);
    RoundAccounted(l, fs0, log0, fs1, log1, fs, log, i, off, src, n, tot, it);
    RecordedMore(l, fs0, log0, fs1, log1, fs, log, i, off, src, tot, m);
  }

  /** A round that ends the loop before its time. */
  lemma CopyStops(l: Layout, fs0: FS, log0: set<nat>, fs1: FS, log1: set<nat>, fs: FS, log: set<nat>, i: nat, off: nat,
                  src: seq<byte>, n: nat, tot: nat, it: nat)
    requires Copying(l, fs0, log0, fs1, log1, i, off, src, n, tot, it) && tot < n
    requires RoundLogged(l, fs1, log1, fs, log, i, (off + tot) / BSIZE)
    requires off % BSIZE != 0 ==> Addr(fs0, i, off / BSIZE) != 0
    ensures Recorded(l, fs0, log0, fs, log, i, off, off + tot) && |log| <= |log0| + LogBound(off, n) - 1
  {
    hide Addr, Wrote, Accounted, Recorded, Trail, MoreAddrs, Spread;
    RoundAccounted(l, fs0, log0, fs1, log1, fs, log, i, off, src, n, tot, it);
    RecordedMore(l, fs0, log0, fs1, log1, fs, log, i, off, src, tot, 0);
    AccountTotal(log0, log, ThroughIndirect(l, fs, i), it + 1, off % BSIZE != 0);
  }

  lemma CopyDone(l: Layout, fs0: FS, log0: set<nat>, fs: FS, log: set<nat>, i: nat, off: nat, src: seq<byte>, n: nat, it: nat)
    requires Copying(l, fs0, log0, fs, log, i, off, src, n, n, it)
    ensures Recorded(l, fs0, log0, fs, log, i, off, off + n) && |log| <= |log0| + LogBound(off, n) - 1
    ensures Wrote(fs0, fs, i, off, src, n, n)
  {
    hide Wrote, Accounted, Recorded, Spread;
    AccountTotal(log0, log, ThroughIndirect(l, fs, i), it, off % BSIZE != 0);
  }

  lemma WroteMapped(fs0: FS, fs: FS, i: nat, off: nat, src: seq<byte>, tot: nat, dirty: nat)
    requires Wrote(fs0, fs, i, off, src, tot, dirty)
    ensures Mapped(fs, i, off, off + tot) && MoreAddrs(fs0, fs)
  {
  }

  /** What storing a newly allocated block `b` in the empty slot `s` does, or finding no block. */
  ghost predicate Grown(l: Layout, fs0: FS, log0: set<nat>, fs: FS, log: set<nat>, s: Slot, b: nat) {
    && SameFiles(fs0, fs) && SameSizes(fs0.inodes, fs.inodes) && |fs.inodes| == |fs0.inodes|
    && (forall i: nat, bn: nat :: Addr(fs, i, bn) == if SlotOf(i, bn) == s then b else Addr(fs0, i, bn))
    && (forall i :: 0 <= i < |fs.inodes| ==>
          |fs.inodes[i].addrs| == |fs0.inodes[i].addrs| == NDIRECT + 1
          && fs.inodes[i].addrs[NDIRECT] == if s == Indirect(i) then b else fs0.inodes[i].addrs[NDIRECT])
    && (b == 0 ==> fs == fs0 && log == log0 && forall c: nat :: c < l.size ==> Used(l, fs.disk, c))
    && (b != 0 ==> l.nmeta <= b < |fs.disk| && !Used(l, fs0.disk, b))
    && log0 <= log && s.i < |fs.inodes|
    && log <= log0 + (if b == 0 then {} else {BBlock(l, b), b}) + (if s.Entry? then {fs0.inodes[s.i].addrs[NDIRECT]} else {})
    && Trail(l, fs0.disk, fs.disk, log)
  }

  lemma GrownNothing(l: Layout, fs: FS, log: set<nat>, s: Slot)
    requires Empty(fs, s) && Sane(l, fs) && forall c: nat :: c < l.size ==> Used(l, fs.disk, c)
    ensures Grown(l, fs, log, fs, log, s, 0)
  {
    EmptyAddr(fs, s);
    TrailSame(l, fs.disk, fs.disk, log);
    SameSelf(fs);
    EmptyIndirect(fs, s);
    hide Used, Trail, Addr, SameFiles, Empty;
  }

  lemma EmptyIndirect(fs: FS, s: Slot)
    requires Empty(fs, s)
    ensures s.i < |fs.inodes| && |fs.inodes[s.i].addrs| == NDIRECT + 1 && (s == Indirect(s.i) ==> fs.inodes[s.i].addrs[NDIRECT] == 0)
  {
  }

  lemma SameSelf(fs: FS)
    ensures SameFiles(fs, fs) && SameSizes(fs.inodes, fs.inodes)
  {
  }

  lemma GrownBy(l: Layout, fs: FS, owner: map<nat, Slot>, log: set<nat>, s: Slot, b: word)
    requires Owned(l, fs, owner, {}) && Empty(fs, s) && 0 < b < l.size && !Used(l, fs.disk, b)
    requires forall c: nat :: c < b ==> Used(l, fs.disk, c)
    requires s.i < |fs.inodes| && |fs.inodes[s.i].addrs| == NDIRECT + 1
    ensures b < |fs.disk| && BBlock(l, b) < |fs.disk|
    ensures Owned(l, Grow(l, fs, s, b), owner[b := s], {})
    ensures Grown(l, fs, log, Grow(l, fs, s, b), log + {BBlock(l, b), b} + if s.Entry? then {fs.inodes[s.i].addrs[NDIRECT]} else {}, s, b)
  {
    hide Owned, Used, SameFiles, Addr, Trail, Empty, SameSizes, Sane, SlotOf, Grow;
    var log2 := log + {BBlock(l, b), b} + if s.Entry? then {fs.inodes[s.i].addrs[NDIRECT]} else {};
    Shapes(l, fs, owner, {});
    AllocOwned(l, fs, owner, {}, b);
    GrowOwned(l, fs, owner, s, b);
    GrowAddrs(l, fs, owner, s, b);
    GrowTrail(l, fs, owner, s, b, log2);
    GrowSize(l, fs, s, b);
  }

  lemma GrowSize(l: Layout, fs: FS, s: Slot, b: word)
    requires b < |fs.disk| && BBlock(l, b) < |fs.disk| && !Used(l, fs.disk, b) && Empty(fs, s)
    ensures |Grow(l, fs, s, b).disk| == |fs.disk| && |Grow(l, fs, s, b).inodes| == |fs.inodes|
  {
    hide Used;
  }

  lemma GrownLocated(l: Layout, fs0: FS, log0: set<nat>, fs: FS, log: set<nat>, i: nat, bn: nat, b: nat)
    requires Grown(l, fs0, log0, fs, log, Direct(i, bn), b) && bn < NDIRECT && Addr(fs0, i, bn) == 0
    ensures Located(l, fs0, log0, fs, log, i, bn, b)
  {
    hide Used, SameFiles, Addr, Trail;
  }

  lemma FoundLocated(l: Layout, fs: FS, log: set<nat>, i: nat, bn: nat)
    requires Addr(fs, i, bn) != 0 && l.nmeta <= Addr(fs, i, bn) < |fs.disk|
    ensures Located(l, fs, log, fs, log, i, bn, Addr(fs, i, bn))
  {
    SameSelf(fs);
    TrailSame(l, fs.disk, fs.disk, log);
    hide Used, SameFiles, Addr, Trail;
  }

  /** The indirect block of inode `i` is at `ind`, if the disk has room for it; no block of any
      file has moved. */
  ghost predicate Reached(l: Layout, fs0: FS, log0: set<nat>, fs: FS, log: set<nat>, i: nat, ind: nat) {
    && SameFiles(fs0, fs) && SameSizes(fs0.inodes, fs.inodes) && |fs.inodes| == |fs0.inodes|
    && (forall i2: nat, bn: nat :: Addr(fs, i2, bn) == Addr(fs0, i2, bn))
    && i < |fs.inodes| && |fs.inodes[i].addrs| == NDIRECT + 1 == |fs0.inodes[i].addrs| && ind == fs.inodes[i].addrs[NDIRECT]
    && (fs0.inodes[i].addrs[NDIRECT] != 0 ==> fs == fs0 && log == log0)
    && (ind == 0 ==> forall c: nat :: c < l.size ==> Used(l, fs.disk, c))
    && (ind != 0 ==> l.nmeta <= ind < |fs.disk| && 0 < l.nmeta)
    && log0 <= log <= log0 + ThroughIndirect(l, fs, i)
    && ThroughIndirect(l, fs0, i) <= ThroughIndirect(l, fs, i)
    && Trail(l, fs0.disk, fs.disk, log)
  }

  lemma GrownReached(l: Layout, fs0: FS, log0: set<nat>, fs: FS, log: set<nat>, i: nat, ind: nat)
    requires Grown(l, fs0, log0, fs, log, Indirect(i), ind) && 0 < l.nmeta
    requires i < |fs0.inodes| && |fs0.inodes[i].addrs| == NDIRECT + 1 && fs0.inodes[i].addrs[NDIRECT] == 0
    ensures Reached(l, fs0, log0, fs, log, i, ind)
  {
    hide Used, SameFiles, SameSizes, Addr, Trail;
  }

  lemma FoundReached(l: Layout, fs: FS, log: set<nat>, i: nat)
    requires i < |fs.inodes| && |fs.inodes[i].addrs| == NDIRECT + 1 && 0 < l.nmeta <= fs.inodes[i].addrs[NDIRECT] < |fs.disk|
    ensures Reached(l, fs, log, fs, log, i, fs.inodes[i].addrs[NDIRECT])
  {
    SameSelf(fs);
    TrailSame(l, fs.disk, fs.disk, log);
    hide Used, SameFiles, SameSizes, Addr, Trail;
  }

  lemma EntryAddr(fs: FS, i: nat, bn: nat)
    requires i < |fs.inodes| && NDIRECT <= bn < MAXFILE
    ensures |fs.inodes[i].addrs| == NDIRECT + 1 && fs.inodes[i].addrs[NDIRECT] == 0 ==> Addr(fs, i, bn) == 0
    ensures |fs.inodes[i].addrs| == NDIRECT + 1 && 0 < fs.inodes[i].addrs[NDIRECT] < |fs.disk| ==>
              Addr(fs, i, bn) == GetWord(fs.disk[fs.inodes[i].addrs[NDIRECT]], bn - NDIRECT)
  {
  }

  /** The block is there already, or the disk has no room for the indirect block. */
  lemma ReachedLocated(l: Layout, fs0: FS, log0: set<nat>, fs: FS, log: set<nat>, i: nat, bn: nat, addr: nat)
    requires i < |fs0.inodes| && NDIRECT <= bn < MAXFILE && addr == Addr(fs, i, bn)
    requires Reached(l, fs0, log0, fs, log, i, if i < |fs.inodes| && |fs.inodes[i].addrs| == NDIRECT + 1 then fs.inodes[i].addrs[NDIRECT] else 0)
    requires addr == 0 ==> fs.inodes[i].addrs[NDIRECT] == 0
    requires addr != 0 ==> l.nmeta <= addr < |fs.disk|
    ensures Located(l, fs0, log0, fs, log, i, bn, addr)
  {
    EntryAddr(fs0, i, bn);
    hide Used, SameFiles, Addr, Trail;
  }

  lemma EntryLocated(l: Layout, fs0: FS, log0: set<nat>, fs1: FS, log1: set<nat>, fs: FS, log: set<nat>, i: nat, bn: nat, addr: nat)
    requires i < |fs1.inodes| && NDIRECT <= bn < MAXFILE && |fs1.inodes[i].addrs| == NDIRECT + 1 && fs1.inodes[i].addrs[NDIRECT] != 0
    requires Reached(l, fs0, log0, fs1, log1, i, fs1.inodes[i].addrs[NDIRECT]) && Addr(fs1, i, bn) == 0
    requires Grown(l, fs1, log1, fs, log, Entry(i, bn - NDIRECT), addr)
    ensures Located(l, fs0, log0, fs, log, i, bn, addr)
  {
    SameTrans(fs0, fs1, fs);
    TrailTrans(l, fs0.disk, fs1.disk, fs.disk, log1, log);
    hide Used, SameFiles, SameSizes, Addr, Trail;
  }

  lemma SameTrans(a: FS, b: FS, c: FS)
    requires SameFiles(a, b) && SameFiles(b, c) && SameSizes(a.inodes, b.inodes) && SameSizes(b.inodes, c.inodes)
    ensures SameFiles(a, c) && SameSizes(a.inodes, c.inodes)
  {
    hide BlockOf;
  }

  /** What `bmap` does: no file's contents change; no other block of any file moves; a block
      that is there is found and nothing changes; `addr` is 0 exactly when the block is still
      missing, and then the disk is full. At most one data block is logged besides the
      indirect block, each with its bitmap block. */
  ghost predicate Located(l: Layout, fs0: FS, log0: set<nat>, fs: FS, log: set<nat>, i: nat, bn: nat, addr: nat) {
    && SameFiles(fs0, fs) && SameSizes(fs0.inodes, fs.inodes) && |fs.inodes| == |fs0.inodes| && OthersKept(fs0, fs, i, bn)
    && addr == Addr(fs, i, bn)
    && (Addr(fs0, i, bn) != 0 ==> fs == fs0 && log == log0)
    && (addr == 0 ==> forall c: nat :: c < l.size ==> Used(l, fs.disk, c))
    && (addr != 0 ==> l.nmeta <= addr < |fs.disk|)
    && log0 <= log <= log0 + {BBlock(l, addr), addr} + ThroughIndirect(l, fs, i)
    && ThroughIndirect(l, fs0, i) <= ThroughIndirect(l, fs, i)
    && Trail(l, fs0.disk, fs.disk, log)
  }

  // ---------- transactions of filewrite ----------

  /** Bytes `filewrite` writes in one transaction. */
  const CHUNK: nat := (MAXOPBLOCKS - 1 - 1 - 2) / 2 * BSIZE

  /** Blocks one call of `writei` may log. */
  function LogBound(off: nat, n: nat): int {
    2 * Spread(off, n) + 3 - if n > 0 && off % BSIZE != 0 then 1 else 0
  }

  /** Chunks of `q` blocks stay within a transaction at every offset exactly for `q <= 3`. */
  lemma ChunkFits(q: nat)
    ensures (forall off: nat, n: nat :: n <= q * BSIZE ==> LogBound(off, n) <= MAXOPBLOCKS) <==> q * BSIZE <= CHUNK
  {
    if q <= 3 {
      forall off: nat, n: nat | n <= q * BSIZE ensures LogBound(off, n) <= MAXOPBLOCKS {
        SpreadBound(off, n);
      }
    } else {
      assert LogBound(0, 4 * BSIZE) == 11;
    }
  }

  lemma BoundPositive(off: nat, n: nat)
    ensures LogBound(off, n) > 0
  {
  }

  lemma SpreadBound(off: nat, n: nat)
    requires n <= 3 * BSIZE
    ensures Spread(off, n) <= if off % BSIZE == 0 then 3 else 4
  {
  }

  lemma WithinTransaction(off: nat, n: nat)
    requires n <= CHUNK
    ensures LogBound(off, n) <= MAXOPBLOCKS
  {
    SpreadBound(off, n);
  }

  /** The transactions since `was` have each logged at most what the log makes room for. */
  ghost predicate WithinLog(was: seq<nat>, sizes: seq<nat>) {
    was <= sizes && forall k :: |was| <= k < |sizes| ==> sizes[k] <= MAXOPBLOCKS
  }

  lemma WithinNothing(sizes: seq<nat>)
    ensures WithinLog(sizes, sizes)
  {
  }

  lemma WithinMore(was: seq<nat>, sizes: seq<nat>, n: nat)
    requires WithinLog(was, sizes) && n <= MAXOPBLOCKS
    ensures WithinLog(was, sizes + [n])
  {
  }

  lemma NothingWritten(fs: FS, i: nat, off: nat, src: seq<byte>)
    ensures SameBytes(fs, fs, i, off, off) && Holds(fs, i, off, src[..0])
  {
  }

  lemma MoreWritten(fs0: FS, fs1: FS, fs: FS, i: nat, off: nat, src: seq<byte>, done: nat, d: nat)
    requires done + d <= |src|
    requires SameBytes(fs0, fs1, i, off, off + done) && Holds(fs1, i, off, src[..done])
    requires SameBytes(fs1, fs, i, off + done, off + done + d) && Holds(fs, i, off + done, src[done..][..d])
    ensures SameBytes(fs0, fs, i, off, off + (done + d)) && Holds(fs, i, off, src[..done + d])
  {
    hide ByteAt;
    SameBytesTrans(fs0, fs1, fs, i, off, off + done, off + done + d);
    HoldsMore(fs1, fs, i, off, off + done, off + done + d, src[..done], src[done..][..d]);
    assert src[..done] + src[done..][..d] == src[..done + d];
  }

  // ---------- truncation ----------

  ghost predicate SameData(l: Layout, d: seq<Block>, d2: seq<Block>) {
    |d2| == |d| && forall b: nat :: l.nmeta <= b < |d| ==> d2[b] == d[b]
  }

  /** Blocks named by direct slots below `k` of inode `i`. */
  ghost function Head(owner: map<nat, Slot>, i: nat, k: nat): set<nat> {
    set b | b in owner && owner[b].Direct? && owner[b].i == i && owner[b].k < k
  }

  /** Blocks named by entries from `j` on of inode `i`'s indirect block, and that block. */
  ghost function TailFrom(owner: map<nat, Slot>, i: nat, j: nat): set<nat> {
    set b | b in owner && owner[b].i == i && (owner[b].Indirect? || (owner[b].Entry? && owner[b].j >= j))
  }

  lemma HeadNext(owner: map<nat, Slot>, i: nat, k: nat, b: nat)
    requires b in owner && owner[b] == Direct(i, k)
    requires forall c :: c in owner && owner[c] == Direct(i, k) ==> c == b
    ensures Head(owner, i, k + 1) == Head(owner, i, k) + {b}
  {
  }

  lemma HeadSkip(owner: map<nat, Slot>, i: nat, k: nat)
    requires forall c :: c in owner ==> owner[c] != Direct(i, k)
    ensures Head(owner, i, k + 1) == Head(owner, i, k)
  {
  }

  lemma TailNext(owner: map<nat, Slot>, i: nat, j: nat, b: nat)
    requires b in owner && owner[b] == Entry(i, j)
    requires forall c :: c in owner && owner[c] == Entry(i, j) ==> c == b
    ensures TailFrom(owner, i, j + 1) == TailFrom(owner, i, j) - {b}
  {
  }

  lemma TailSkip(owner: map<nat, Slot>, i: nat, j: nat)
    requires forall c :: c in owner ==> owner[c] != Entry(i, j)
    ensures TailFrom(owner, i, j + 1) == TailFrom(owner, i, j)
  {
  }

  /** A slot's owner entry, seen from the slot. */
  lemma SlotOwner(l: Layout, fs: FS, owner: map<nat, Slot>, loose: set<nat>, s: Slot)
    requires Owned(l, fs, owner, loose) && ValidSlot(fs, s)
    ensures Names(fs, s) == 0 ==> forall c :: c in owner ==> owner[c] != s
    ensures Names(fs, s) != 0 ==> Names(fs, s) in owner && owner[Names(fs, s)] == s
                                  && forall c :: c in owner && owner[c] == s ==> c == Names(fs, s)
  {
    hide Names;
  }

  lemma ReleaseData(l: Layout, fs: FS, b: nat)
    requires Sane(l, fs) && b < l.size && Used(l, fs.disk, b)
    ensures SameData(l, fs.disk, Release(l, fs, b).disk)
  {
    BitmapBlock(l, b);
  }

  /** A direct block freed and its slot emptied, in either order. */
  lemma DropDirect(l: Layout, fs: FS, owner: map<nat, Slot>, i: nat, k: nat)
    requires Owned(l, fs, owner, {}) && i < |fs.inodes| && k < NDIRECT && fs.inodes[i].addrs[k] != 0
    ensures var b := fs.inodes[i].addrs[k];
            && b in owner && owner[b] == Direct(i, k) && Used(l, fs.disk, b) && b < l.size
            && Owned(l, SetAddr(Release(l, fs, b), i, k, 0), owner - {b}, {})
            && SameData(l, fs.disk, Release(l, fs, b).disk)
  {
    var b := fs.inodes[i].addrs[k];
    DetachDirect(l, fs, owner, {}, i, k);
    ReleaseOwned(l, SetAddr(fs, i, k, 0), owner - {b}, {b}, b);
    ReleaseData(l, fs, b);
    hide Owned, Used;
    assert {b} - {b} == {} && {} + {b} == {b};
    assert Release(l, SetAddr(fs, i, k, 0), b) == SetAddr(Release(l, fs, b), i, k, 0);
  }

  /** While the indirect block's entries are being freed, the state is seen as it will be
      once the pointer is cleared: entries not yet reached, and the block, are loose. */
  ghost predicate Draining(l: Layout, fs: FS, owner: map<nat, Slot>, i: nat, j: nat)
    requires i < |fs.inodes| && |fs.inodes[i].addrs| == NDIRECT + 1
  {
    Owned(l, SetAddr(fs, i, NDIRECT, 0), owner - Tail(owner, i), TailFrom(owner, i, j))
  }

  lemma StartDraining(l: Layout, fs: FS, owner: map<nat, Slot>, i: nat)
    requires Owned(l, fs, owner, {}) && i < |fs.inodes|
    ensures |fs.inodes[i].addrs| == NDIRECT + 1 && Draining(l, fs, owner, i, 0)
  {
    DetachIndirect(l, fs, owner, {}, i);
    hide Owned;
    assert Tail(owner, i) == TailFrom(owner, i, 0) == {} + Tail(owner, i);
    Shapes(l, fs, owner, {});
  }

  lemma DrainOne(l: Layout, fs: FS, owner: map<nat, Slot>, i: nat, j: nat, b: nat)
    requires i < |fs.inodes| && |fs.inodes[i].addrs| == NDIRECT + 1 && Draining(l, fs, owner, i, j)
    requires b in TailFrom(owner, i, j)
    ensures Used(l, fs.disk, b) && b < l.size && SameData(l, fs.disk, Release(l, fs, b).disk)
    ensures Owned(l, SetAddr(Release(l, fs, b), i, NDIRECT, 0), owner - Tail(owner, i), TailFrom(owner, i, j) - {b})
  {
    var g := SetAddr(fs, i, NDIRECT, 0);
    ReleaseOwned(l, g, owner - Tail(owner, i), TailFrom(owner, i, j), b);
    ReleaseData(l, g, b);
    hide Owned, Used;
    assert Release(l, g, b) == SetAddr(Release(l, fs, b), i, NDIRECT, 0);
  }

  /** At the end only the indirect block itself is left. */
  lemma Drained(owner: map<nat, Slot>, i: nat, ind: nat)
    requires ind in owner && owner[ind] == Indirect(i)
    requires forall c :: c in owner && owner[c] == Indirect(i) ==> c == ind
    requires forall c :: c in owner && owner[c].Entry? ==> owner[c].j < NINDIRECT
    ensures TailFrom(owner, i, NINDIRECT) == {ind}
  {
  }

  /** All blocks of inode `i`. */
  ghost function BlocksOf(owner: map<nat, Slot>, i: nat): set<nat> {
    set b | b in owner && owner[b].i == i
  }

  lemma AllBlocks(owner: map<nat, Slot>, i: nat)
    requires forall c :: c in owner && owner[c].Direct? ==> owner[c].k < NDIRECT
    ensures owner - Head(owner, i, NDIRECT) - Tail(owner - Head(owner, i, NDIRECT), i) == owner - BlocksOf(owner, i)
  {
  }

  lemma SlotRanges(l: Layout, fs: FS, owner: map<nat, Slot>, loose: set<nat>)
    requires Owned(l, fs, owner, loose)
    ensures forall c :: c in owner ==> (owner[c].Direct? ==> owner[c].k < NDIRECT) && (owner[c].Entry? ==> owner[c].j < NINDIRECT)
  {
    hide Names;
  }

  /** Truncation frees exactly the blocks of inode `i`. */
  lemma FreedExactly(l: Layout, fs: FS, owner: map<nat, Slot>, fs2: FS, i: nat, b: nat)
    requires Owned(l, fs, owner, {}) && Owned(l, fs2, owner - BlocksOf(owner, i), {}) && b < l.size
    ensures Used(l, fs2.disk, b) <==> Used(l, fs.disk, b) && b !in BlocksOf(owner, i)
  {
    hide Names, Used;
  }

  lemma OtherFiles(l: Layout, fs: FS, owner: map<nat, Slot>, fs2: FS, i: nat, i2: nat, bn: nat)
    requires Owned(l, fs, owner, {}) && SameData(l, fs.disk, fs2.disk) && |fs2.inodes| == |fs.inodes|
    requires i2 != i && forall j :: 0 <= j < |fs.inodes| && j != i ==> fs2.inodes[j] == fs.inodes[j]
    ensures Addr(fs2, i2, bn) == Addr(fs, i2, bn) && BlockOf(fs2, i2, bn) == BlockOf(fs, i2, bn)
  {
    if i2 < |fs.inodes| {
      assert ValidSlot(fs, Indirect(i2));
    }
    if Addr(fs, i2, bn) != 0 {
      AddrOwned(l, fs, owner, {}, i2, bn);
    }
  }

  lemma NamesIndirect(fs: FS, i: nat)
    requires i < |fs.inodes| && |fs.inodes[i].addrs| == NDIRECT + 1
    ensures ValidSlot(fs, Indirect(i)) && Names(fs, Indirect(i)) == fs.inodes[i].addrs[NDIRECT]
  {
  }

  lemma NamesEntry(fs: FS, i: nat, j: nat)
    requires i < |fs.inodes| && |fs.inodes[i].addrs| == NDIRECT + 1 && j < NINDIRECT
    requires 0 < fs.inodes[i].addrs[NDIRECT] < |fs.disk|
    ensures ValidSlot(fs, Entry(i, j)) && Names(fs, Entry(i, j)) == GetWord(fs.disk[fs.inodes[i].addrs[NDIRECT]], j)
  {
  }

  lemma NoTail(l: Layout, fs: FS, owner: map<nat, Slot>, i: nat)
    requires Owned(l, fs, owner, {}) && i < |fs.inodes| && |fs.inodes[i].addrs| == NDIRECT + 1
    requires fs.inodes[i].addrs[NDIRECT] == 0
    ensures Tail(owner, i) == {} && owner - Tail(owner, i) == owner
  {
    forall b | b in owner ensures !(!owner[b].Direct? && owner[b].i == i) {
      assert Names(fs, owner[b]) == b && b != 0;
    }
  }

  class FileSystem {
    const l: Layout
    var disk: seq<Block>
    var inodes: seq<Inode>
    var logged: set<nat>            // blocks given to log_write since begin_op
    ghost var sizes: seq<nat>       // how many blocks each transaction so far has logged
    ghost var owner: map<nat, Slot>

    /** A mounted image, with the slot that owns each data block. */
    constructor (l: Layout, disk: seq<Block>, inodes: seq<Inode>, ghost owner: map<nat, Slot>)
      requires Owned(l, FS(disk, inodes), owner, {})
      ensures this.l == l && State() == FS(disk, inodes) && this.owner == owner && logged == {} && Valid()
    {
      this.l, this.disk, this.inodes, this.owner, logged, sizes := l, disk, inodes, owner, {}, [];
    }

    ghost function State(): FS
      reads this
    {
      FS(disk, inodes)
    }

    ghost predicate Valid()
      reads this
    {
      Owned(l, State(), owner, {})
    }

    /** The lowest free block, marked and zeroed; 0 if there is none. */
    method Balloc() returns (r: nat)
      requires Sane(l, State()) && Used(l, disk, 0)
      modifies this`disk, this`logged
      ensures r == 0 ==> disk == old(disk) && logged == old(logged) && forall c: nat :: c < l.size ==> Used(l, disk, c)
      ensures r != 0 ==> r < l.size && !old(Used(l, disk, r)) && forall c: nat :: c < r ==> old(Used(l, disk, c))
      ensures r != 0 ==> BBlock(l, r) < |old(disk)| && State() == Alloc(l, old(State()), r)
      ensures r != 0 ==> logged == old(logged) + {BBlock(l, r), r}
    {
      var b := 0;
      while b < l.size
        invariant b % BPB == 0
        invariant forall c: nat :: c < b && c < l.size ==> Used(l, disk, c)
        invariant disk == old(disk) && logged == old(logged)
      {
        var bi := 0;
        while bi < BPB && b + bi < l.size
          invariant 0 <= bi <= BPB
          invariant forall c: nat :: c < b + bi && c < l.size ==> Used(l, disk, c)
          invariant disk == old(disk) && logged == old(logged)
        {
          var n := b / BPB + l.bmapstart;
          BitmapBlock(l, b + bi);
          ScanIndex(b, bi);
          if !Bit(disk[n].data, bi) {
            disk := disk[n := RawBlock(SetBit(disk[n].data, bi))];
            logged := logged + {n};
            r := b + bi;
            disk := disk[r := Zero()];
            logged := logged + {r};
            return;
          }
          bi := bi + 1;
        }
        ScanIndex(b, 0);
        b := b + BPB;
      }
      return 0;
    }

    /** Clears the bit of a block in use; freeing a free block would panic. */
    method Bfree(b: nat)
      requires Used(l, disk, b)
      modifies this`disk, this`logged
      ensures State() == Release(l, old(State()), b)
      ensures logged == old(logged) + {BBlock(l, b)}
    {
      var n, bi := BBlock(l, b), b % BPB;
      disk := disk[n := RawBlock(ClearBit(disk[n].data, bi))];
      logged := logged + {n};
    }
  
    /** A block number stored in a slot; an indirect block that changes is logged. */
    method Store(s: Slot, b: word)
      requires ValidSlot(State(), s) && (s.Entry? ==> inodes[s.i].addrs[NDIRECT] < |disk|)
      modifies this`disk, this`inodes, this`logged
      ensures State() == Attach(old(State()), s, b)
      ensures logged == old(logged) + if s.Entry? then {old(inodes[s.i].addrs[NDIRECT])} else {}
    {
      if s.Direct? {
        inodes := inodes[s.i := inodes[s.i].(addrs := inodes[s.i].addrs[s.k := b])];
      } else if s.Indirect? {
        inodes := inodes[s.i := inodes[s.i].(addrs := inodes[s.i].addrs[NDIRECT := b])];
      } else {
        var ind := inodes[s.i].addrs[NDIRECT];
        disk := disk[ind := PutWord(disk[ind], s.j, b)];
        logged := logged + {ind};
      }
    }

    /** `balloc`, and the block number stored in an empty slot. */
    method AllocInto(s: Slot) returns (b: nat)
      requires Valid() && Empty(State(), s)
      modifies this`disk, this`inodes, this`logged, this`owner
      ensures Valid() && Grown(l, old(State()), old(logged), State(), logged, s, b)
    {
      Shapes(l, State(), owner, {});
      EmptyIndirect(State(), s);
      hide Owned, Used, Names, Grown, Sane, BBlock, Attach;
      b := Balloc();
      if b == 0 {
        GrownNothing(l, State(), logged, s);
        return;
      }
      GrownBy(l, old(State()), owner, old(logged), s, b);
      Store(s, b);
      owner := owner[b := s];
    }

    /** `bmap` for a direct block. */
    method BmapDirect(i: nat, bn: nat) returns (addr: nat)
      requires Valid() && i < |inodes| && bn < NDIRECT
      modifies this`disk, this`inodes, this`logged, this`owner
      ensures Valid() && Located(l, old(State()), old(logged), State(), logged, i, bn, addr)
      ensures old(Addr(State(), i, bn)) != 0 ==> owner == old(owner)
    {
      Shapes(l, State(), owner, {});
      assert Names(State(), Direct(i, bn)) == inodes[i].addrs[bn] == Addr(State(), i, bn);
      hide Owned, Located, Grown;
      addr := inodes[i].addrs[bn];
      if addr == 0 {
        addr := AllocInto(Direct(i, bn));
        GrownLocated(l, old(State()), old(logged), State(), logged, i, bn, addr);
      } else {
        AddrRange(l, State(), owner, {}, i, bn);
        FoundLocated(l, State(), logged, i, bn);
      }
    }

    /** The indirect block of inode `i`, allocated if need be. */
    method IndirectBlock(i: nat) returns (ind: nat)
      requires Valid() && i < |inodes|
      modifies this`disk, this`inodes, this`logged, this`owner
      ensures Valid() && Reached(l, old(State()), old(logged), State(), logged, i, ind)
      ensures |old(inodes[i].addrs)| == NDIRECT + 1 && (old(inodes[i].addrs[NDIRECT]) != 0 ==> owner == old(owner))
    {
      Shapes(l, State(), owner, {});
      NamesIndirect(State(), i);
      hide Owned, Grown, Reached;
      ind := inodes[i].addrs[NDIRECT];
      if ind == 0 {
        ind := AllocInto(Indirect(i));
        GrownReached(l, old(State()), old(logged), State(), logged, i, ind);
      } else {
        FoundReached(l, State(), logged, i);
      }
    }

    /** `bmap` for a block reached through the indirect block. */
    method BmapIndirect(i: nat, bn: nat) returns (addr: nat)
      requires Valid() && i < |inodes| && NDIRECT <= bn < MAXFILE
      modifies this`disk, this`inodes, this`logged, this`owner
      ensures Valid() && Located(l, old(State()), old(logged), State(), logged, i, bn, addr)
      ensures old(Addr(State(), i, bn)) != 0 ==> owner == old(owner)
    {
      hide Owned, Located, Grown, Addr, SameFiles, SameSizes, Trail, Used;
      EntryAddr(State(), i, bn);
      var ind := IndirectBlock(i);
      ghost var fs1, log1 := State(), logged;
      EntryAddr(fs1, i, bn);
      if ind == 0 {
        ReachedLocated(l, old(State()), old(logged), fs1, log1, i, bn, 0);
        return 0;
      }
      NamesEntry(State(), i, bn - NDIRECT);
      addr := GetWord(disk[ind], bn - NDIRECT);
      if addr == 0 {
        addr := AllocInto(Entry(i, bn - NDIRECT));
        EntryLocated(l, old(State()), old(logged), fs1, log1, State(), logged, i, bn, addr);
      } else {
        AddrRange(l, State(), owner, {}, i, bn);
        ReachedLocated(l, old(State()), old(logged), fs1, log1, i, bn, addr);
      }
    }

    /** The disk address of block `bn` of inode `i`, allocating it, and the indirect block
        before it, as needed. */
    method Bmap(i: nat, bn: nat) returns (addr: nat)
      requires Valid() && i < |inodes| && bn < MAXFILE
      modifies this`disk, this`inodes, this`logged, this`owner
      ensures Valid() && Located(l, old(State()), old(logged), State(), logged, i, bn, addr)
      ensures old(Addr(State(), i, bn)) != 0 ==> owner == old(owner)
    {
      hide Owned, Located, Addr;
      if bn < NDIRECT {
        addr := BmapDirect(i, bn);
      } else {
        addr := BmapIndirect(i, bn);
      }
    }

    /** One round of `writei`: find or allocate the block at offset `o`, copy in the first
        `got` bytes of `data` (all of them unless the copy faults), log it if all arrived. */
    method WriteChunk(i: nat, o: nat, data: seq<byte>, got: nat) returns (r: Outcome)
      requires Valid() && i < |inodes| && got <= |data|
      requires 0 < |data| && o % BSIZE + |data| <= BSIZE && o + |data| <= MAXFILE * BSIZE
      modifies this`disk, this`inodes, this`logged, this`owner
      ensures Valid() && SameSizes(old(inodes), inodes) && |inodes| == |old(inodes)|
      ensures r == Full ==> SameBytes(old(State()), State(), i, o, o) && forall c: nat :: c < l.size ==> Used(l, disk, c)
      ensures r != Full ==> Addr(State(), i, o / BSIZE) != 0 && SameBytes(old(State()), State(), i, o, o + got)
      ensures r != Full ==> Holds(State(), i, o, data[..got]) && (r == Copied <==> got == |data|)
      ensures RoundLogged(l, old(State()), old(logged), State(), logged, i, o / BSIZE)
      ensures r == Copied ==> Addr(State(), i, o / BSIZE) in logged
      ensures r == Fault && old(Addr(State(), i, o / BSIZE)) != 0 ==> logged == old(logged)
    {
      hide Owned, Used, BlockOf, ByteAt, Addr, SameBytes, Holds, SameSizes, SameFiles, MoreAddrs, OthersKept, ThroughIndirect, Trail;
      var addr := Bmap(i, o / BSIZE);
      SameFilesBytes(old(State()), State(), i, o);
      KeptMore(old(State()), State(), i, o / BSIZE);
      if addr == 0 {
        return Full;
      }
      PatchMapped(l, old(State()), State(), owner, i, o, data[..got]);
      WriteTrail(l, old(State()), State(), owner, addr, Patch(disk[addr], o % BSIZE, data[..got]), logged,
                 if got < |data| then logged else logged + {addr});
      disk := disk[addr := Patch(disk[addr], o % BSIZE, data[..got])];
      if got < |data| {
        return Fault;
      }
      logged := logged + {addr};
      return Copied;
    }
  
    /** A round of the loop, as progress on the whole write begun in `fs0`. */
    method CopyRound(i: nat, src: seq<byte>, avail: nat, off: nat, tot: nat, m: nat, ghost n: nat, ghost fs0: FS,
                     ghost log0: set<nat>, ghost it: nat)
      returns (r: Outcome, ghost dirty: nat)
      requires Valid() && i < |inodes| && 0 < m && tot + m <= |src| && off + tot + m <= MAXFILE * BSIZE
      requires (off + tot) % BSIZE + m <= BSIZE && Copying(l, fs0, log0, State(), logged, i, off, src, n, tot, it)
      modifies this`disk, this`inodes, this`logged, this`owner
      ensures Valid() && |inodes| == |old(inodes)|
      ensures Wrote(fs0, State(), i, off, src, if r == Copied then tot + m else tot, dirty)
      ensures r == Copied ==> dirty == tot + m
      ensures r != Copied ==> (dirty == tot || dirty == avail) && dirty < tot + m
      ensures r == Fault ==> avail < tot + m
      ensures r == Full ==> forall c: nat :: c < l.size ==> Used(l, disk, c)
      ensures RoundLogged(l, old(State()), old(logged), State(), logged, i, (off + tot) / BSIZE)
      ensures r == Copied ==> Addr(State(), i, (off + tot) / BSIZE) in logged
    {
      hide Owned, Used, ByteAt, Addr, Wrote, SameBytes, Holds, MoreAddrs, SameSizes, ThroughIndirect, Trail, Recorded, Accounted;
      var got := if tot + m <= avail then m else if tot < avail then avail - tot else 0;
      r := WriteChunk(i, off + tot, src[tot..tot + m], got);
      if r == Full {
        WroteNoMore(fs0, old(State()), State(), i, off, src, tot);
        dirty := tot;
      } else {
        WroteMore(fs0, old(State()), State(), i, off, src, tot, m, got);
        dirty := tot + got;
      }
    }

    /** The copying loop of `writei`. */
    method CopyIn(i: nat, src: seq<byte>, avail: nat, off: nat, n: nat) returns (tot: nat, ghost dirty: nat)
      requires Valid() && i < |inodes| && n <= |src| && off + n <= MAXFILE * BSIZE
      requires off % BSIZE != 0 ==> Addr(State(), i, off / BSIZE) != 0
      modifies this`disk, this`inodes, this`logged, this`owner
      ensures Valid() && |inodes| == |old(inodes)| && tot <= n
      ensures Wrote(old(State()), State(), i, off, src, tot, dirty)
      ensures dirty == tot || dirty == avail < n
      ensures tot < n ==> avail < n || forall c: nat :: c < l.size ==> Used(l, disk, c)
      ensures |logged| <= |old(logged)| + LogBound(off, n) - 1
      ensures Recorded(l, old(State()), old(logged), State(), logged, i, off, off + tot)
    {
      hide Owned, Used, Addr, Wrote, Recorded, RoundLogged, Copying, LogBound;
      CopyStarts(l, State(), logged, i, off, src, n);
      ghost var it := 0;
      tot := 0;
      while tot < n
        invariant tot <= n && Valid() && |inodes| == |old(inodes)|
        invariant Copying(l, old(State()), old(logged), State(), logged, i, off, src, n, tot, it)
      {
        var o := off + tot;
        var m := if n - tot < BSIZE - o % BSIZE then n - tot else BSIZE - o % BSIZE;
        ghost var fs1, log1 := State(), logged;
        var r, d := CopyRound(i, src, avail, off, tot, m, n, old(State()), old(logged), it);
        if r != Copied {
          CopyStops(l, old(State()), old(logged), fs1, log1, State(), logged, i, off, src, n, tot, it);
          return tot, d;
        }
        CopyAdvances(l, old(State()), old(logged), fs1, log1, State(), logged, i, off, src, n, tot, it, m);
        it := it + 1;
        tot := tot + m;
      }
      CopyDone(l, old(State()), old(logged), State(), logged, i, off, src, n, it);
      dirty := tot;
    }

    /** Writes `n` bytes of user memory at `off`, of which the first `avail` can be read. What
        arrived is in the file, no other byte of any file changed except, after a copy fault,
        the rest of the readable bytes in that block; the size is the larger of the old size
        and the end of what was written; and the number of blocks logged is bounded. */
    method WriteI(i: nat, src: seq<byte>, avail: nat, off: word, n: word) returns (tot: int, ghost dirty: nat)
      requires Valid() && Solid(State()) && i < |inodes| && n <= |src|
      modifies this`disk, this`inodes, this`logged, this`owner
      ensures Valid() && Solid(State()) && |inodes| == |old(inodes)|
      ensures tot == -1 <==> off > old(inodes[i].size) || off + n > MAXFILE * BSIZE
      ensures tot == -1 ==> State() == old(State()) && logged == old(logged)
      ensures tot != -1 ==> 0 <= tot <= dirty <= n && (dirty == tot || dirty == avail < n)
      ensures tot != -1 ==> SameBytes(old(State()), State(), i, off, off + dirty) && Holds(State(), i, off, src[..dirty])
      ensures tot != -1 ==> inodes[i].size == if off + tot > old(inodes[i].size) then off + tot else old(inodes[i].size)
      ensures forall k :: 0 <= k < |inodes| && k != i ==> inodes[k].size == old(inodes[k].size)
      ensures tot != -1 && tot < n ==> avail < n || forall c: nat :: c < l.size ==> Used(l, disk, c)
      ensures |logged| <= |old(logged)| + LogBound(off, n)
      ensures old(logged) <= logged && Trail(l, old(disk), disk, logged) && MoreAddrs(old(State()), State())
      ensures tot != -1 ==> DataLogged(State(), i, off, off + tot, logged) && IBlock(l, i) in logged
    {
      hide Owned, Used, ByteAt, Addr, Wrote, SameBytes, Holds, Solid, LogBound, Trail, MoreAddrs, Mapped, DataLogged;
      BoundPositive(off, n);
      TrailSame(l, disk, disk, logged);
      MoreSame(State());
      if off > inodes[i].size || off + n >= 0x1_0000_0000 {
        return -1, 0;
      }
      if off + n > MAXFILE * BSIZE {
        return -1, 0;
      }
      FirstBlock(State(), i, off);
      tot, dirty := CopyIn(i, src, avail, off, n);
      WroteResize(l, old(State()), State(), owner, i, off, src, tot, dirty);
      WithSameSize(State(), i);
      ghost var fs1 := State();
      if off + tot > inodes[i].size {
        inodes := inodes[i := inodes[i].(size := off + tot)];
      }
      UnionSize(logged, {IBlock(l, i)});
      DataKept(fs1, State(), i, off, off + tot, logged, logged + {IBlock(l, i)});
      TrailSame(l, fs1.disk, disk, logged + {IBlock(l, i)});
      TrailTrans(l, old(disk), fs1.disk, disk, logged, logged + {IBlock(l, i)});
      logged := logged + {IBlock(l, i)};
    }
  
    /** Reads up to `n` bytes from `off`; the destination can take `room` bytes. The result is
        exactly the requested slice of the file, cut off at its end, or -1 if it does not fit. */
    method ReadI(i: nat, room: nat, off: word, n: word) returns (tot: int, out: seq<byte>)
      requires Valid() && Solid(State()) && i < |inodes|
      modifies this`disk, this`inodes, this`logged, this`owner
      ensures State() == old(State()) && logged == old(logged) && owner == old(owner)
      ensures var want := if off > inodes[i].size || off + n >= 0x1_0000_0000 then 0
                          else if off + n > inodes[i].size then inodes[i].size - off else n;
              && (tot == -1 <==> room < want)
              && (tot != -1 ==> tot == want && out == Bytes(State(), i, off, want))
    {
      hide Owned, ByteAt, Addr, SameFiles, SameSizes, OthersKept, Trail, ThroughIndirect, Used, BlockOf, Bytes, Solid, BBlock;
      out := [];
      if off > inodes[i].size || off + n >= 0x1_0000_0000 {
        return 0, [];
      }
      var want := if off + n > inodes[i].size then inodes[i].size - off else n;
      tot := 0;
      while tot < want
        invariant 0 <= tot <= want && tot <= room && out == Bytes(State(), i, off, tot)
        invariant State() == old(State()) && logged == old(logged) && owner == old(owner)
      {
        var o := off + tot;
        BelowSize(State(), i, o);
        var addr := Bmap(i, o / BSIZE);
        var m := if want - tot < BSIZE - o % BSIZE then want - tot else BSIZE - o % BSIZE;
        if tot + m > room {
          return -1, out;
        }
        BytesNext(State(), i, off, tot, m);
        out := out + disk[addr].data[o % BSIZE..o % BSIZE + m];
        tot := tot + m;
      }
    }
  
    method BeginOp()
      modifies this`logged
      ensures logged == {}
    {
      logged := {};
    }

    method EndOp()
      modifies this`sizes
      ensures sizes == old(sizes) + [|logged|]
    {
      sizes := sizes + [|logged|];
    }

    /** `filewrite` on an inode: `writei` in transactions of at most three blocks' worth of
        bytes, none of which logs more than MAXOPBLOCKS blocks. */
    method FileWrite(i: nat, foff: word, src: seq<byte>, avail: nat, n: int)
      returns (ret: int, newoff: word, ghost dirty: nat)
      requires Valid() && Solid(State()) && i < |inodes| && n <= |src| && n <= 0x7fff_ffff
      modifies this`disk, this`inodes, this`logged, this`owner, this`sizes
      ensures Valid() && Solid(State()) && |inodes| == |old(inodes)|
      ensures WithinLog(old(sizes), sizes)
      ensures ret == (if n >= 0 && newoff == foff + n then n else -1) && foff <= newoff <= foff + dirty
      ensures dirty <= |src| && (newoff == foff + dirty || dirty == avail)
      ensures SameBytes(old(State()), State(), i, foff, foff + dirty) && Holds(State(), i, foff, src[..dirty])
      ensures inodes[i].size == if newoff > old(inodes[i].size) && newoff > foff then newoff else old(inodes[i].size)
      ensures forall k :: 0 <= k < |inodes| && k != i ==> inodes[k].size == old(inodes[k].size)
    {
      hide Owned, ByteAt, Addr, SameBytes, Holds, Solid, Spread, Trail, MoreAddrs, DataLogged, LogBound, Used, WithinLog;
      WithinNothing(sizes);
      var max := (MAXOPBLOCKS - 1 - 1 - 2) / 2 * BSIZE;
      var done := 0;
      newoff, dirty := foff, 0;
      NothingWritten(State(), i, foff, src);
      while done < n
        invariant 0 <= done && (n >= 0 ==> done <= n) && (n < 0 ==> done == 0) && dirty == done
        invariant Valid() && Solid(State()) && |inodes| == |old(inodes)| && newoff == foff + done
        invariant SameBytes(old(State()), State(), i, foff, foff + done) && Holds(State(), i, foff, src[..done])
        invariant inodes[i].size == if newoff > old(inodes[i].size) && newoff > foff then newoff else old(inodes[i].size)
        invariant forall k :: 0 <= k < |inodes| && k != i ==> inodes[k].size == old(inodes[k].size)
        invariant WithinLog(old(sizes), sizes)
      {
        var n1 := n - done;
        if n1 > max {
          n1 := max;
        }
        BeginOp();
        ghost var fs1 := State();
        var r, d := WriteI(i, src[done..], if avail < done then 0 else avail - done, newoff, n1);
        WithinTransaction(newoff, n1);
        WithinMore(old(sizes), sizes, |logged|);
        EndOp();
        if r == -1 {
          break;
        }
        MoreWritten(old(State()), fs1, State(), i, foff, src, done, d);
        newoff := newoff + r;
        dirty := done + d;
        if r != n1 {
          break;
        }
        done := done + r;
      }
      ret := if done == n then n else -1;
    }
  
    /** The direct half of `itrunc`. */
    method TruncDirect(i: nat)
      requires Valid() && i < |inodes|
      modifies this`disk, this`inodes, this`logged, this`owner
      ensures Valid() && |inodes| == |old(inodes)| && SameData(l, old(disk), disk)
      ensures owner == old(owner) - Head(old(owner), i, NDIRECT)
      ensures |inodes[i].addrs| == NDIRECT + 1 && forall k :: 0 <= k < NDIRECT ==> inodes[i].addrs[k] == 0
      ensures |old(inodes[i].addrs)| == NDIRECT + 1 && inodes[i].addrs[NDIRECT] == old(inodes[i].addrs[NDIRECT])
      ensures forall j :: 0 <= j < |inodes| && j != i ==> inodes[j] == old(inodes[j])
    {
      hide Owned, Used;
      Shapes(l, State(), owner, {});
      var k := 0;
      while k < NDIRECT
        invariant 0 <= k <= NDIRECT && Valid() && |inodes| == |old(inodes)| && SameData(l, old(disk), disk)
        invariant owner == old(owner) - Head(old(owner), i, k)
        invariant |inodes[i].addrs| == |old(inodes[i].addrs)| == NDIRECT + 1
        invariant forall j :: 0 <= j < k ==> inodes[i].addrs[j] == 0
        invariant forall j :: k <= j <= NDIRECT ==> inodes[i].addrs[j] == old(inodes[i].addrs[j])
        invariant forall j :: 0 <= j < |inodes| && j != i ==> inodes[j] == old(inodes[j])
      {
        SlotOwner(l, old(State()), old(owner), {}, Direct(i, k));
        var b := inodes[i].addrs[k];
        if b != 0 {
          DropDirect(l, State(), owner, i, k);
          HeadNext(old(owner), i, k, b);
          Bfree(b);
          inodes := inodes[i := inodes[i].(addrs := inodes[i].addrs[k := 0])];
          owner := owner - {b};
        } else {
          HeadSkip(old(owner), i, k);
        }
        k := k + 1;
      }
    }
  
    /** The indirect half of `itrunc`: free every entry, then the indirect block. */
    method TruncIndirect(i: nat)
      requires Valid() && i < |inodes|
      modifies this`disk, this`inodes, this`logged, this`owner
      ensures Valid() && |inodes| == |old(inodes)| && SameData(l, old(disk), disk)
      ensures owner == old(owner) - Tail(old(owner), i) && |old(inodes[i].addrs)| == NDIRECT + 1
      ensures inodes[i].size == old(inodes[i].size) && inodes[i].addrs == old(inodes[i].addrs)[NDIRECT := 0]
      ensures forall j :: 0 <= j < |inodes| && j != i ==> inodes[j] == old(inodes[j])
    {
      hide Owned, Used, Names;
      Shapes(l, State(), owner, {});
      SlotRanges(l, State(), owner, {});
      SlotOwner(l, State(), owner, {}, Indirect(i));
      NamesIndirect(State(), i);
      var ind := inodes[i].addrs[NDIRECT];
      if ind != 0 {
        StartDraining(l, State(), owner, i);
        var a := disk[ind];
        var j := 0;
        while j < NINDIRECT
          invariant 0 <= j <= NINDIRECT && inodes == old(inodes) && owner == old(owner)
          invariant SameData(l, old(disk), disk) && Draining(l, State(), owner, i, j)
        {
          NamesEntry(old(State()), i, j);
          SlotOwner(l, old(State()), owner, {}, Entry(i, j));
          var b := GetWord(a, j);
          if b != 0 {
            DrainOne(l, State(), owner, i, j, b);
            TailNext(owner, i, j, b);
            Bfree(b);
          } else {
            TailSkip(owner, i, j);
          }
          j := j + 1;
        }
        Drained(owner, i, ind);
        DrainOne(l, State(), owner, i, NINDIRECT, ind);
        assert {ind} - {ind} == {};
        Bfree(ind);
        inodes := inodes[i := inodes[i].(addrs := inodes[i].addrs[NDIRECT := 0])];
        owner := owner - Tail(owner, i);
      } else {
        NoTail(l, State(), owner, i);
      }
    }

    /** `itrunc` frees exactly the blocks the inode has, each of them in use until then, and
        leaves every other file as it was. */
    method Itrunc(i: nat)
      requires Valid() && i < |inodes|
      modifies this`disk, this`inodes, this`logged, this`owner
      ensures Valid() && |inodes| == |old(inodes)|
      ensures inodes[i].size == 0 && |inodes[i].addrs| == NDIRECT + 1 && forall k :: 0 <= k <= NDIRECT ==> inodes[i].addrs[k] == 0
      ensures forall j :: 0 <= j < |inodes| && j != i ==> inodes[j] == old(inodes[j])
      ensures owner == old(owner) - BlocksOf(old(owner), i)
      ensures forall b: nat :: b < l.size ==> (Used(l, disk, b) <==> old(Used(l, disk, b)) && b !in BlocksOf(old(owner), i))
      ensures forall i2: nat, bn: nat :: i2 != i ==> BlockOf(State(), i2, bn) == BlockOf(old(State()), i2, bn)
      ensures Solid(old(State())) ==> Solid(State())
    {
      hide Owned, Used, BlockOf, Names, Addr;
      SlotRanges(l, State(), owner, {});
      AllBlocks(owner, i);
      TruncDirect(i);
      TruncIndirect(i);
      ResizeOwned(l, State(), owner, i, 0);
      inodes := inodes[i := inodes[i].(size := 0)];
      logged := logged + {IBlock(l, i)};
      forall b: nat | b < l.size ensures Used(l, disk, b) <==> old(Used(l, disk, b)) && b !in BlocksOf(old(owner), i) {
        FreedExactly(l, old(State()), old(owner), State(), i, b);
      }
      forall i2: nat, bn: nat | i2 != i
        ensures Addr(State(), i2, bn) == Addr(old(State()), i2, bn)
        ensures BlockOf(State(), i2, bn) == BlockOf(old(State()), i2, bn)
      {
        OtherFiles(l, old(State()), old(owner), State(), i, i2, bn);
      }
    }
  }
}