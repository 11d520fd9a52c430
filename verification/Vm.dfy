/** Sv39 page tables, physical frames and user address spaces: kernel/vm.c, kernel/kalloc.c
    and the memory side of kernel/proc.c. Addresses are handled by page: a frame number is
    `pa / PGSIZE` and a virtual page number `va / PGSIZE`. */
module Vm {
  import Blocks

  const PGSIZE: nat := 4096
  const NPTE: nat := 512
  const NVPN: nat := NPTE * NPTE * NPTE
  const MAXVPN: nat := 0x400_0000      // MAXVA / PGSIZE: 38-bit addresses
  const TRAMPOLINE: nat := MAXVPN - 1
  const TRAPFRAME: nat := MAXVPN - 2

  // ---------- page table entries ----------

  const PTE_V: nat := 1
  const PTE_R: nat := 2
  const PTE_W: nat := 4
  const PTE_X: nat := 8
  const PTE_U: nat := 16

  /** `PA2PTE(pa) | flags`, for flags below 2^10. */
  function MakePte(frame: nat, flags: nat): nat
    requires flags < 1024
  {
    frame * 1024 + flags
  }

  /** `PTE2PA(pte) / PGSIZE`. */
  function Frame(pte: nat): nat {
    pte / 1024
  }

  function Flags(pte: nat): nat {
    pte % 1024
  }

  predicate Present(pte: nat) {
    pte % 2 == 1
  }

  /** `pte & (PTE_R|PTE_W|PTE_X)` is nonzero: a leaf, not a pointer to another table. */
  predicate Rwx(pte: nat) {
    pte % 16 / 2 != 0
  }

  lemma PteFields(frame: nat, flags: nat)
    requires flags < 1024
    ensures Frame(MakePte(frame, flags)) == frame && Flags(MakePte(frame, flags)) == flags
    ensures Present(MakePte(frame, flags)) == Present(flags) && Rwx(MakePte(frame, flags)) == Rwx(flags)
  {
    assert MakePte(frame, flags) == 2 * (512 * frame) + flags == 16 * (64 * frame) + flags;
    LowBits(512 * frame, 64 * frame, flags);
  }

  lemma LowBits(a: nat, b: nat, flags: nat)
    ensures (2 * a + flags) % 2 == flags % 2 && (16 * b + flags) % 16 == flags % 16
  {
  }

  // ---------- the three 9-bit indices of a page number ----------

  function I0(vpn: nat): nat { vpn % NPTE }
  function I1(vpn: nat): nat { vpn / NPTE % NPTE }
  function I2(vpn: nat): nat { vpn / NPTE / NPTE }

  function Vpn(i2: nat, i1: nat, i0: nat): nat {
    (i2 * NPTE + i1) * NPTE + i0
  }

  lemma Indices(vpn: nat)
    ensures Vpn(I2(vpn), I1(vpn), I0(vpn)) == vpn && I1(vpn) < NPTE && I0(vpn) < NPTE
    ensures vpn < NVPN <==> I2(vpn) < NPTE
  {
  }

  lemma IndicesOf(i2: nat, i1: nat, i0: nat)
    requires i1 < NPTE && i0 < NPTE
    ensures I2(Vpn(i2, i1, i0)) == i2 && I1(Vpn(i2, i1, i0)) == i1 && I0(Vpn(i2, i1, i0)) == i0
  {
  }

  // ---------- memory ----------

  type byte = Blocks.byte

  /** What a frame in use holds. */
  datatype Page = Table(ptes: seq<nat>) | Bytes(b: seq<byte>)

  /** The memory side of a process: root table, trapframe page, size in bytes, the
      demand-filled region (page number and length in pages; length 0 for none) and the
      number of faults served. */
  datatype Proc = Proc(root: nat, trapframe: nat, sz: nat, rstart: nat, rpages: nat, faults: nat)

  datatype Vm = Vm(mem: map<nat, Page>, free: seq<nat>, procs: map<nat, Proc>)

  /** Entry `i` of the table in frame `f`; 0 where there is none. */
  function Pte(vm: Vm, f: nat, i: nat): nat {
    if f in vm.mem && vm.mem[f].Table? && i < |vm.mem[f].ptes| then vm.mem[f].ptes[i] else 0
  }

  function Child(vm: Vm, f: nat, i: nat): nat {
    if Present(Pte(vm, f, i)) then Frame(Pte(vm, f, i)) else 0
  }

  function RootOf(vm: Vm, p: nat): nat {
    if p in vm.procs then vm.procs[p].root else 0
  }

  function TrapOf(vm: Vm, p: nat): nat {
    if p in vm.procs then vm.procs[p].trapframe else 0
  }

  function MidOf(vm: Vm, p: nat, i2: nat): nat {
    Child(vm, RootOf(vm, p), i2)
  }

  function LowOf(vm: Vm, p: nat, i2: nat, i1: nat): nat {
    Child(vm, MidOf(vm, p, i2), i1)
  }

  /** The flat view of a page table: the leaf entry for a page, 0 if there is no such entry. */
  function LeafPte(vm: Vm, p: nat, vpn: nat): nat {
    Pte(vm, LowOf(vm, p, I2(vpn), I1(vpn)), I0(vpn))
  }

  // ---------- what each frame is used for ----------

  datatype Use =
    | Root(p: nat)
    | Mid(p: nat, i2: nat)
    | Low(p: nat, i2: nat, i1: nat)
    | Leaf(p: nat, vpn: nat)
    | Trap(p: nat)

  predicate Special(vpn: nat) {
    vpn == TRAMPOLINE || vpn == TRAPFRAME
  }

  predicate ValidUse(u: Use) {
    && (u.Mid? ==> u.i2 < NPTE)
    && (u.Low? ==> u.i2 < NPTE && u.i1 < NPTE)
    && (u.Leaf? ==> u.vpn < NVPN && !Special(u.vpn))
  }

  /** The frame in use as `u`; 0 for none. */
  function Names(vm: Vm, u: Use): nat {
    if u.Root? then RootOf(vm, u.p)
    else if u.Mid? then MidOf(vm, u.p, u.i2)
    else if u.Low? then LowOf(vm, u.p, u.i2, u.i1)
    else if u.Leaf? then (if Present(LeafPte(vm, u.p, u.vpn)) then Frame(LeafPte(vm, u.p, u.vpn)) else 0)
    else TrapOf(vm, u.p)
  }

  predicate IsTable(u: Use) {
    u.Root? || u.Mid? || u.Low?
  }

  /** A frame holds what its use calls for: tables of 512 entries whose entries point to
      tables down to the last level and map pages there, or 4096 bytes. */
  ghost predicate Formed(page: Page, u: Use) {
    if IsTable(u) then
      && page.Table? && |page.ptes| == NPTE
      && forall i :: 0 <= i < NPTE ==> Present(page.ptes[i]) ==> (Rwx(page.ptes[i]) <==> u.Low?) && Frame(page.ptes[i]) != 0
    else page.Bytes? && |page.b| == PGSIZE
  }

  ghost predicate Distinct(s: seq<nat>) {
    forall i, j :: 0 <= i < j < |s| ==> s[i] != s[j]
  }

  /** Every frame of RAM is in exactly one place: the free list, one use given by `owner`,
      or `loose` (just taken off the free list, or about to go back). */
  ghost predicate Owned(ram: set<nat>, vm: Vm, owner: map<nat, Use>, loose: set<nat>) {
    && (forall u :: ValidUse(u) && Names(vm, u) != 0 ==> Names(vm, u) in owner && owner[Names(vm, u)] == u)
    && (forall f :: f in owner ==> ValidUse(owner[f]) && Names(vm, owner[f]) == f && f in vm.mem && Formed(vm.mem[f], owner[f]))
    && Distinct(vm.free) && 0 !in vm.mem
    && (forall f :: f in ram <==> f in owner || f in loose || f in vm.free)
    && (forall f :: f in ram ==> f != 0)
    && (forall f :: f in owner ==> f !in loose && f !in vm.free)
    && (forall f :: f in loose ==> f !in vm.free)
  }

  // ---------- steps that keep ownership ----------

  function SetPte(vm: Vm, f: nat, i: nat, e: nat): Vm
    requires f in vm.mem && vm.mem[f].Table? && i < |vm.mem[f].ptes|
  {
    vm.(mem := vm.mem[f := Table(vm.mem[f].ptes[i := e])])
  }

  lemma SetPteAt(vm: Vm, f: nat, i: nat, e: nat, g: nat, k: nat)
    requires f in vm.mem && vm.mem[f].Table? && i < |vm.mem[f].ptes|
    ensures Pte(SetPte(vm, f, i, e), g, k) == if g == f && k == i then e else Pte(vm, g, k)
  {
  }

  /** The table that holds the leaf entry of a page. */
  lemma LowTable(ram: set<nat>, vm: Vm, owner: map<nat, Use>, loose: set<nat>, p: nat, vpn: nat)
    requires Owned(ram, vm, owner, loose) && vpn < NVPN
    ensures var f := LowOf(vm, p, I2(vpn), I1(vpn));
            f != 0 ==> f in owner && owner[f] == Low(p, I2(vpn), I1(vpn)) && f in vm.mem && vm.mem[f].Table? && |vm.mem[f].ptes| == NPTE
  {
    Indices(vpn);
    assert Names(vm, Low(p, I2(vpn), I1(vpn))) == LowOf(vm, p, I2(vpn), I1(vpn));
  }

  /** Rewriting the entry of a last-level table leaves the tables above it alone. */
  lemma LowFrame(ram: set<nat>, vm: Vm, owner: map<nat, Use>, loose: set<nat>, f: nat, i: nat, e: nat, q: nat,
      i2: nat, i1: nat)
    requires Owned(ram, vm, owner, loose) && f in owner && owner[f].Low? && i < NPTE && i2 < NPTE
    ensures f in vm.mem && vm.mem[f].Table? && |vm.mem[f].ptes| == NPTE
    ensures var vm2 := SetPte(vm, f, i, e);
            RootOf(vm2, q) == RootOf(vm, q) && MidOf(vm2, q, i2) == MidOf(vm, q, i2) && LowOf(vm2, q, i2, i1) == LowOf(vm, q, i2, i1)
  {
    assert Names(vm, Root(q)) == RootOf(vm, q) && Names(vm, Mid(q, i2)) == MidOf(vm, q, i2);
    assert ValidUse(Root(q)) && ValidUse(Mid(q, i2));
    assert RootOf(vm, q) != f && MidOf(vm, q, i2) != f;
    hide Owned;
    SetPteAt(vm, f, i, e, RootOf(vm, q), i2);
    SetPteAt(vm, f, i, e, MidOf(vm, q, i2), i1);
  }

  /** Setting a leaf entry is insertion into, or deletion from, the flat map. */
  lemma SetLeaf(ram: set<nat>, vm: Vm, owner: map<nat, Use>, loose: set<nat>, p: nat, vpn: nat, e: nat, q: nat, v: nat)
    requires Owned(ram, vm, owner, loose) && vpn < NVPN && v < NVPN
    requires LowOf(vm, p, I2(vpn), I1(vpn)) != 0
    ensures var f := LowOf(vm, p, I2(vpn), I1(vpn)); f in vm.mem && vm.mem[f].Table? && |vm.mem[f].ptes| == NPTE
    ensures I0(vpn) < NPTE
    ensures var vm2 := SetPte(vm, LowOf(vm, p, I2(vpn), I1(vpn)), I0(vpn), e);
            LeafPte(vm2, q, v) == if q == p && v == vpn then e else LeafPte(vm, q, v)
  {
    var f, g := LowOf(vm, p, I2(vpn), I1(vpn)), LowOf(vm, q, I2(v), I1(v));
    Indices(vpn);
    Indices(v);
    LowTable(ram, vm, owner, loose, p, vpn);
    LowTable(ram, vm, owner, loose, q, v);
    LowFrame(ram, vm, owner, loose, f, I0(vpn), e, q, I2(v), I1(v));
    hide Owned, LowOf;
    SetPteAt(vm, f, I0(vpn), e, g, I0(v));
    assert g == f ==> Low(p, I2(vpn), I1(vpn)) == Low(q, I2(v), I1(v));
  }

  /** ... and changes no table and no other leaf. */
  lemma SetLeafNames(ram: set<nat>, vm: Vm, owner: map<nat, Use>, loose: set<nat>, p: nat, vpn: nat, e: nat, u: Use)
    requires Owned(ram, vm, owner, loose) && vpn < NVPN && ValidUse(u)
    requires LowOf(vm, p, I2(vpn), I1(vpn)) != 0
    ensures var f := LowOf(vm, p, I2(vpn), I1(vpn)); f in vm.mem && vm.mem[f].Table? && |vm.mem[f].ptes| == NPTE
    ensures I0(vpn) < NPTE
    ensures var vm2 := SetPte(vm, LowOf(vm, p, I2(vpn), I1(vpn)), I0(vpn), e);
            Names(vm2, u) == if u == Leaf(p, vpn) then (if Present(e) then Frame(e) else 0) else Names(vm, u)
  {
    Indices(vpn);
    LowTable(ram, vm, owner, loose, p, vpn);
    var f := LowOf(vm, p, I2(vpn), I1(vpn));
    if u.Leaf? {
      SetLeaf(ram, vm, owner, loose, p, vpn, e, u.p, u.vpn);
    } else if u.Low? {
      LowFrame(ram, vm, owner, loose, f, I0(vpn), e, u.p, u.i2, u.i1);
    } else if u.Mid? {
      LowFrame(ram, vm, owner, loose, f, I0(vpn), e, u.p, u.i2, 0);
    }
  }

  lemma SetLeafFormed(ram: set<nat>, vm: Vm, owner: map<nat, Use>, loose: set<nat>, f: nat, i: nat, e: nat, g: nat)
    requires Owned(ram, vm, owner, loose) && f in owner && owner[f].Low? && i < NPTE && g in owner
    requires Present(e) ==> Rwx(e) && Frame(e) != 0
    ensures f in vm.mem && vm.mem[f].Table? && |vm.mem[f].ptes| == NPTE
    ensures g in vm.mem && Formed(SetPte(vm, f, i, e).mem[g], owner[g])
  {
    assert Formed(vm.mem[g], owner[g]) && Formed(vm.mem[f], owner[f]);
    hide Owned, Names, Present, Rwx, Frame;
  }

  /** A leaf entry set to map a loose frame of bytes, or a frame this table does not own. */
  lemma MapOwned(ram: set<nat>, vm: Vm, owner: map<nat, Use>, loose: set<nat>, p: nat, vpn: nat, g: nat, flags: nat)
    requires Owned(ram, vm, owner, loose) && vpn < NVPN
    requires LowOf(vm, p, I2(vpn), I1(vpn)) != 0 && !Present(LeafPte(vm, p, vpn))
    requires flags < 1024 && Present(flags) && Rwx(flags) && g != 0
    requires !Special(vpn) ==> g in loose && g in vm.mem && Formed(vm.mem[g], Leaf(p, vpn))
    ensures var f := LowOf(vm, p, I2(vpn), I1(vpn)); f in vm.mem && vm.mem[f].Table? && |vm.mem[f].ptes| == NPTE
    ensures I0(vpn) < NPTE
    ensures var vm2 := SetPte(vm, LowOf(vm, p, I2(vpn), I1(vpn)), I0(vpn), MakePte(g, flags));
            if Special(vpn) then Owned(ram, vm2, owner, loose) else Owned(ram, vm2, owner[g := Leaf(p, vpn)], loose - {g})
  {
    PteFields(g, flags);
    var e, f := MakePte(g, flags), LowOf(vm, p, I2(vpn), I1(vpn));
    Indices(vpn);
    LowTable(ram, vm, owner, loose, p, vpn);
    var vm2 := SetPte(vm, f, I0(vpn), e);
    forall u | ValidUse(u) ensures Names(vm2, u) == if u == Leaf(p, vpn) then g else Names(vm, u) {
      SetLeafNames(ram, vm, owner, loose, p, vpn, e, u);
    }
    forall h | h in owner ensures h in vm.mem && Formed(vm2.mem[h], owner[h]) {
      SetLeafFormed(ram, vm, owner, loose, f, I0(vpn), e, h);
    }
    assert !Special(vpn) ==> ValidUse(Leaf(p, vpn)) && Names(vm, Leaf(p, vpn)) == 0;
    hide Names, Present, Rwx, MakePte, Formed;
  }

  /** A leaf entry cleared: the frame it mapped is loose. */
  lemma UnmapOwned(ram: set<nat>, vm: Vm, owner: map<nat, Use>, loose: set<nat>, p: nat, vpn: nat)
    requires Owned(ram, vm, owner, loose) && vpn < NVPN && Present(LeafPte(vm, p, vpn))
    ensures LowOf(vm, p, I2(vpn), I1(vpn)) != 0
    ensures var f := LowOf(vm, p, I2(vpn), I1(vpn)); f in vm.mem && vm.mem[f].Table? && |vm.mem[f].ptes| == NPTE
    ensures I0(vpn) < NPTE
    ensures var vm2 := SetPte(vm, LowOf(vm, p, I2(vpn), I1(vpn)), I0(vpn), 0);
            var g := Frame(LeafPte(vm, p, vpn));
            if Special(vpn) then Owned(ram, vm2, owner, loose)
            else g in owner && owner[g] == Leaf(p, vpn) && Owned(ram, vm2, owner - {g}, loose + {g})
  {
    var f, g := LowOf(vm, p, I2(vpn), I1(vpn)), Frame(LeafPte(vm, p, vpn));
    Indices(vpn);
    LowTable(ram, vm, owner, loose, p, vpn);
    var vm2 := SetPte(vm, f, I0(vpn), 0);
    forall u | ValidUse(u) ensures Names(vm2, u) == if u == Leaf(p, vpn) then 0 else Names(vm, u) {
      SetLeafNames(ram, vm, owner, loose, p, vpn, 0, u);
    }
    forall h | h in owner ensures h in vm.mem && Formed(vm2.mem[h], owner[h]) {
      SetLeafFormed(ram, vm, owner, loose, f, I0(vpn), 0, h);
    }
    assert !Special(vpn) ==> ValidUse(Leaf(p, vpn)) && Names(vm, Leaf(p, vpn)) == g;
    hide Names, Rwx, Formed;
  }

  /** `kalloc` takes the head of the free list; the contents are junk. */
  lemma PopOwned(ram: set<nat>, vm: Vm, owner: map<nat, Use>, loose: set<nat>)
    requires Owned(ram, vm, owner, loose) && |vm.free| > 0
    ensures Owned(ram, vm.(free := vm.free[1..]), owner, loose + {vm.free[0]})
    ensures vm.free[0] != 0 && vm.free[0] !in owner && vm.free[0] !in loose && vm.free[0] in ram
  {
    var vm2 := vm.(free := vm.free[1..]);
    SameTreesNames(vm, vm2);
    assert vm.free == [vm.free[0]] + vm2.free;
    hide Names;
  }

  ghost predicate SameNames(vm: Vm, vm2: Vm) {
    forall u :: ValidUse(u) ==> Names(vm2, u) == Names(vm, u)
  }

  /** Only the free list, sizes and regions differ. */
  ghost predicate SameTrees(vm: Vm, vm2: Vm) {
    vm2.mem == vm.mem && forall q: nat :: RootOf(vm2, q) == RootOf(vm, q) && TrapOf(vm2, q) == TrapOf(vm, q)
  }

  lemma SameTreesAt(vm: Vm, vm2: Vm, p: nat, i2: nat, i1: nat, v: nat)
    requires SameTrees(vm, vm2)
    ensures RootOf(vm2, p) == RootOf(vm, p) && MidOf(vm2, p, i2) == MidOf(vm, p, i2)
    ensures LowOf(vm2, p, i2, i1) == LowOf(vm, p, i2, i1) && LeafPte(vm2, p, v) == LeafPte(vm, p, v)
  {
  }

  lemma SameTreesNames(vm: Vm, vm2: Vm)
    requires SameTrees(vm, vm2)
    ensures SameNames(vm, vm2)
  {
    forall u | ValidUse(u) ensures Names(vm2, u) == Names(vm, u) {
      SameTreesAt(vm, vm2, u.p, if u.Mid? || u.Low? then u.i2 else 0, if u.Low? then u.i1 else 0, if u.Leaf? then u.vpn else 0);
    }
  }

  /** New contents for a frame that is not a table in use. */
  lemma FillOwned(ram: set<nat>, vm: Vm, owner: map<nat, Use>, loose: set<nat>, g: nat, page: Page)
    requires Owned(ram, vm, owner, loose) && g in loose
    ensures Owned(ram, vm.(mem := vm.mem[g := page]), owner, loose)
    ensures SameNames(vm, vm.(mem := vm.mem[g := page]))
    ensures forall p: nat, v: nat :: v < NVPN ==> LeafPte(vm.(mem := vm.mem[g := page]), p, v) == LeafPte(vm, p, v)
  {
    var vm2 := vm.(mem := vm.mem[g := page]);
    forall u | ValidUse(u) ensures Names(vm2, u) == Names(vm, u) {
      LooseFrame(ram, vm, owner, loose, vm2, g, u);
    }
    forall p: nat, v: nat | v < NVPN ensures LeafPte(vm2, p, v) == LeafPte(vm, p, v) {
      LooseLeaf(ram, vm, owner, loose, vm2, g, p, v);
    }
    hide Names;
  }

  /** Memory that is not a table in use does not matter to any table. */
  lemma LooseLeaf(ram: set<nat>, vm: Vm, owner: map<nat, Use>, loose: set<nat>, vm2: Vm, g: nat, p: nat, v: nat)
    requires Owned(ram, vm, owner, loose) && (g in owner ==> !IsTable(owner[g])) && g != 0 && v < NVPN
    requires vm2.procs == vm.procs && vm2.mem - {g} == vm.mem - {g}
    ensures RootOf(vm2, p) == RootOf(vm, p) && MidOf(vm2, p, I2(v)) == MidOf(vm, p, I2(v))
    ensures LowOf(vm2, p, I2(v), I1(v)) == LowOf(vm, p, I2(v), I1(v)) && LeafPte(vm2, p, v) == LeafPte(vm, p, v)
  {
    Indices(v);
    LowTable(ram, vm, owner, loose, p, v);
    assert ValidUse(Root(p)) && ValidUse(Mid(p, I2(v)));
    assert Names(vm, Root(p)) == RootOf(vm, p) != g && Names(vm, Mid(p, I2(v))) == MidOf(vm, p, I2(v)) != g;
    hide Owned;
    SameAway(vm.mem, vm2.mem, g);
  }

  lemma SameAway(m: map<nat, Page>, m2: map<nat, Page>, g: nat)
    requires m2 - {g} == m - {g}
    ensures forall f :: f != g ==> (f in m2 <==> f in m) && (f in m ==> m2[f] == m[f])
  {
    forall f | f != g ensures (f in m2 <==> f in m) && (f in m ==> m2[f] == m[f]) {
      assert f in m - {g} <==> f in m;
      assert f in m2 - {g} <==> f in m2;
      assert f in m ==> (m - {g})[f] == m[f] && (m2 - {g})[f] == m2[f];
    }
  }

  lemma LooseFrame(ram: set<nat>, vm: Vm, owner: map<nat, Use>, loose: set<nat>, vm2: Vm, g: nat, u: Use)
    requires Owned(ram, vm, owner, loose) && (g in owner ==> !IsTable(owner[g])) && g != 0 && ValidUse(u)
    requires vm2.procs == vm.procs && vm2.mem - {g} == vm.mem - {g}
    ensures Names(vm2, u) == Names(vm, u)
  {
    if u.Leaf? {
      LooseLeaf(ram, vm, owner, loose, vm2, g, u.p, u.vpn);
    } else if u.Low? {
      IndicesOf(u.i2, u.i1, 0);
      LooseLeaf(ram, vm, owner, loose, vm2, g, u.p, Vpn(u.i2, u.i1, 0));
    } else if u.Mid? {
      IndicesOf(u.i2, 0, 0);
      LooseLeaf(ram, vm, owner, loose, vm2, g, u.p, Vpn(u.i2, 0, 0));
    }
  }

  /** `kfree` puts a frame at the head of the free list and its contents are gone. */
  lemma PushOwned(ram: set<nat>, vm: Vm, owner: map<nat, Use>, loose: set<nat>, g: nat)
    requires Owned(ram, vm, owner, loose) && g in loose
    ensures var vm2 := Vm(vm.mem - {g}, [g] + vm.free, vm.procs);
            && Owned(ram, vm2, owner, loose - {g}) && SameNames(vm, vm2)
            && forall p: nat, v: nat :: v < NVPN ==> LeafPte(vm2, p, v) == LeafPte(vm, p, v)
  {
    var vm2 := Vm(vm.mem - {g}, [g] + vm.free, vm.procs);
    forall u | ValidUse(u) ensures Names(vm2, u) == Names(vm, u) {
      LooseFrame(ram, vm, owner, loose, vm2, g, u);
    }
    forall p: nat, v: nat | v < NVPN ensures LeafPte(vm2, p, v) == LeafPte(vm, p, v) {
      LooseLeaf(ram, vm, owner, loose, vm2, g, p, v);
    }
    assert Distinct(vm2.free);
    hide Names;
  }

  // ---------- growing the tree ----------

  function Zeros(): (s: seq<nat>)
    ensures |s| == NPTE && forall i :: 0 <= i < NPTE ==> s[i] == 0
  {
    seq(NPTE, _ => 0)
  }

  /** The table and the index at which the table used as `u` is entered. */
  function ParentOf(vm: Vm, u: Use): nat
    requires u.Mid? || u.Low?
  {
    if u.Mid? then RootOf(vm, u.p) else MidOf(vm, u.p, u.i2)
  }

  function IndexOf(u: Use): nat
    requires u.Mid? || u.Low?
  {
    if u.Mid? then u.i2 else u.i1
  }

  ghost predicate CanAttach(vm: Vm, loose: set<nat>, u: Use, g: nat) {
    && (u.Mid? || u.Low?) && ValidUse(u) && ParentOf(vm, u) != 0 && !Present(Pte(vm, ParentOf(vm, u), IndexOf(u)))
    && g in loose && g in vm.mem && vm.mem[g] == Table(Zeros())
  }

  lemma SameParent(vm: Vm, vm2: Vm, u: Use)
    requires (u.Mid? || u.Low?) && ValidUse(u) && SameNames(vm, vm2)
    ensures ParentOf(vm2, u) == ParentOf(vm, u) && (u.Low? ==> MidOf(vm2, u.p, u.i2) == MidOf(vm, u.p, u.i2))
  {
    var w := if u.Mid? then Root(u.p) else Mid(u.p, u.i2);
    assert ValidUse(w) && Names(vm2, w) == ParentOf(vm2, u) && Names(vm, w) == ParentOf(vm, u);
  }

  lemma ParentTable(ram: set<nat>, vm: Vm, owner: map<nat, Use>, loose: set<nat>, u: Use)
    requires Owned(ram, vm, owner, loose) && (u.Mid? || u.Low?) && ValidUse(u) && ParentOf(vm, u) != 0
    ensures var f := ParentOf(vm, u);
            && f in vm.mem && vm.mem[f].Table? && |vm.mem[f].ptes| == NPTE && f in owner
            && owner[f] == (if u.Mid? then Root(u.p) else Mid(u.p, u.i2))
  {
    var w := if u.Mid? then Root(u.p) else Mid(u.p, u.i2);
    assert ValidUse(w) && Names(vm, w) == ParentOf(vm, u);
  }

  /** A present entry leads somewhere, and there is no table in frame 0. */
  lemma PresentFrame(ram: set<nat>, vm: Vm, owner: map<nat, Use>, loose: set<nat>, f: nat, i: nat)
    requires Owned(ram, vm, owner, loose)
    ensures f in owner && IsTable(owner[f]) && i < NPTE && Present(Pte(vm, f, i)) ==> Frame(Pte(vm, f, i)) != 0
    ensures Pte(vm, 0, i) == 0 && Child(vm, 0, i) == 0
  {
    hide Names;
  }

  ghost function Attached(vm: Vm, u: Use, g: nat): Vm
    requires (u.Mid? || u.Low?) && ParentOf(vm, u) in vm.mem && vm.mem[ParentOf(vm, u)].Table?
    requires IndexOf(u) < |vm.mem[ParentOf(vm, u)].ptes|
  {
    SetPte(vm, ParentOf(vm, u), IndexOf(u), MakePte(g, PTE_V))
  }

  /** Hooking in an empty table changes that one pointer and no mapping. */
  lemma AttachedAt(ram: set<nat>, vm: Vm, owner: map<nat, Use>, loose: set<nat>, u: Use, g: nat, q: nat, v: nat)
    requires Owned(ram, vm, owner, loose) && CanAttach(vm, loose, u, g) && v < NVPN
    ensures var f := ParentOf(vm, u); f in vm.mem && vm.mem[f].Table? && |vm.mem[f].ptes| == NPTE
    ensures var vm2 := Attached(vm, u, g);
            && RootOf(vm2, q) == RootOf(vm, q)
            && MidOf(vm2, q, I2(v)) == (if u == Mid(q, I2(v)) then g else MidOf(vm, q, I2(v)))
            && LowOf(vm2, q, I2(v), I1(v)) == (if u == Low(q, I2(v), I1(v)) then g else LowOf(vm, q, I2(v), I1(v)))
            && LeafPte(vm2, q, v) == LeafPte(vm, q, v)
  {
    ParentTable(ram, vm, owner, loose, u);
    PteFields(g, PTE_V);
    Indices(v);
    LowTable(ram, vm, owner, loose, q, v);
    var f, i, e := ParentOf(vm, u), IndexOf(u), MakePte(g, PTE_V);
    var root, mid, low := RootOf(vm, q), MidOf(vm, q, I2(v)), LowOf(vm, q, I2(v), I1(v));
    assert ValidUse(Root(q)) && ValidUse(Mid(q, I2(v)));
    assert Names(vm, Root(q)) == root && Names(vm, Mid(q, I2(v))) == mid;
    assert root != g && mid != g && low != g && g != f && 0 !in vm.mem && g != 0;
    assert (root == f <==> u.Mid? && u.p == q) && (mid == f <==> u.Low? && u.p == q && u.i2 == I2(v)) && low != f;
    hide Owned, MakePte;
    var vm2 := SetPte(vm, f, i, e);
    SetPteAt(vm, f, i, e, root, I2(v));
    SetPteAt(vm, f, i, e, mid, I1(v));
    SetPteAt(vm, f, i, e, low, I0(v));
    SetPteAt(vm, f, i, e, g, I1(v));
    SetPteAt(vm, f, i, e, g, I0(v));
  }

  lemma AttachedNames(ram: set<nat>, vm: Vm, owner: map<nat, Use>, loose: set<nat>, u: Use, g: nat, w: Use)
    requires Owned(ram, vm, owner, loose) && CanAttach(vm, loose, u, g) && ValidUse(w)
    ensures var f := ParentOf(vm, u); f in vm.mem && vm.mem[f].Table? && |vm.mem[f].ptes| == NPTE
    ensures Names(Attached(vm, u, g), w) == if w == u then g else Names(vm, w)
  {
    hide Owned;
    if w.Leaf? {
      AttachedAt(ram, vm, owner, loose, u, g, w.p, w.vpn);
    } else {
      var i2, i1 := if w.Mid? || w.Low? then w.i2 else 0, if w.Low? then w.i1 else 0;
      IndicesOf(i2, i1, 0);
      AttachedAt(ram, vm, owner, loose, u, g, w.p, Vpn(i2, i1, 0));
    }
  }

  lemma AttachedFormed(ram: set<nat>, vm: Vm, owner: map<nat, Use>, loose: set<nat>, u: Use, g: nat, f: nat)
    requires Owned(ram, vm, owner, loose) && CanAttach(vm, loose, u, g) && f in owner
    ensures var h := ParentOf(vm, u); h in vm.mem && vm.mem[h].Table? && |vm.mem[h].ptes| == NPTE
    ensures f in Attached(vm, u, g).mem && Formed(Attached(vm, u, g).mem[f], owner[f])
  {
    ParentTable(ram, vm, owner, loose, u);
    PteFields(g, PTE_V);
    assert Formed(vm.mem[f], owner[f]);
    hide Owned, MakePte, Names, Present, Rwx;
    assert Present(PTE_V) && !Rwx(PTE_V);
  }

  lemma AttachedOwned(ram: set<nat>, vm: Vm, owner: map<nat, Use>, loose: set<nat>, u: Use, g: nat)
    requires Owned(ram, vm, owner, loose) && CanAttach(vm, loose, u, g)
    ensures var f := ParentOf(vm, u); f in vm.mem && vm.mem[f].Table? && |vm.mem[f].ptes| == NPTE
    ensures Owned(ram, Attached(vm, u, g), owner[g := u], loose - {g})
    ensures forall p: nat, v: nat :: v < NVPN ==> LeafPte(Attached(vm, u, g), p, v) == LeafPte(vm, p, v)
  {
    ParentTable(ram, vm, owner, loose, u);
    var vm2 := Attached(vm, u, g);
    forall w | ValidUse(w) ensures Names(vm2, w) == if w == u then g else Names(vm, w) {
      AttachedNames(ram, vm, owner, loose, u, g, w);
    }
    forall f | f in owner ensures f in vm2.mem && Formed(vm2.mem[f], owner[f]) {
      AttachedFormed(ram, vm, owner, loose, u, g, f);
    }
    forall p: nat, v: nat | v < NVPN ensures LeafPte(vm2, p, v) == LeafPte(vm, p, v) {
      AttachedAt(ram, vm, owner, loose, u, g, p, v);
    }
    assert Formed(vm2.mem[g], u);
    hide Names, LeafPte, Formed;
  }

  // ---------- what a user sees ----------

  /** The bytes of the frame a page is mapped to; empty if it is not mapped. */
  function PageAt(vm: Vm, p: nat, v: nat): seq<byte> {
    var f := Names(vm, Leaf(p, v));
    if f in vm.mem && vm.mem[f].Bytes? then vm.mem[f].b else []
  }

  predicate SameAt(vm: Vm, vm2: Vm, p: nat, v: nat) {
    LeafPte(vm2, p, v) == LeafPte(vm, p, v) && (Special(v) || PageAt(vm2, p, v) == PageAt(vm, p, v))
  }

  /** Pages `lo .. hi` of process `p` aside, every process maps the same pages with the same
      entries and the same contents. */
  ghost predicate Outside(vm: Vm, vm2: Vm, p: nat, lo: nat, hi: nat) {
    forall q: nat, v: nat :: v < NVPN && !(q == p && lo <= v < hi) ==> SameAt(vm, vm2, q, v)
  }

  ghost predicate SameView(vm: Vm, vm2: Vm) {
    Outside(vm, vm2, 0, 0, 0)
  }

  lemma SameViewAt(vm: Vm, vm2: Vm, p: nat, v: nat)
    requires SameView(vm, vm2) && v < NVPN
    ensures LeafPte(vm2, p, v) == LeafPte(vm, p, v) && Names(vm2, Leaf(p, v)) == Names(vm, Leaf(p, v))
    ensures !Special(v) ==> PageAt(vm2, p, v) == PageAt(vm, p, v)
  {
    assert SameAt(vm, vm2, p, v);
    hide LeafPte, PageAt;
  }

  lemma SameViewOutside(vm: Vm, vm2: Vm, p: nat)
    requires SameView(vm, vm2)
    ensures Outside(vm, vm2, p, 0, NVPN)
  {
    hide SameAt;
  }

  lemma OutsideTrans(a: Vm, b: Vm, c: Vm, p: nat, lo: nat, mid: nat, hi: nat)
    requires Outside(a, b, p, lo, mid) && (Outside(b, c, p, mid, hi) || SameView(b, c)) && lo <= mid <= hi
    ensures Outside(a, c, p, lo, hi)
  {
    forall q: nat, v: nat | v < NVPN && !(q == p && lo <= v < hi) ensures SameAt(a, c, q, v) {
      assert SameAt(a, b, q, v) && SameAt(b, c, q, v);
    }
  }

  lemma SameTreesView(vm: Vm, vm2: Vm)
    requires SameTrees(vm, vm2)
    ensures SameView(vm, vm2)
  {
    forall p: nat, v: nat | v < NVPN ensures SameAt(vm, vm2, p, v) {
      SameTreesAt(vm, vm2, p, 0, 0, v);
    }
  }

  /** Memory other than mapped pages changed, and no entry. */
  lemma KeepPages(ram: set<nat>, vm: Vm, owner: map<nat, Use>, loose: set<nat>, vm2: Vm, g: nat)
    requires Owned(ram, vm, owner, loose) && g != 0 && (g in owner ==> !owner[g].Leaf?)
    requires vm2.mem - {g} == vm.mem - {g}
    requires forall p: nat, v: nat :: v < NVPN ==> LeafPte(vm2, p, v) == LeafPte(vm, p, v)
    ensures SameView(vm, vm2)
  {
    SameAway(vm.mem, vm2.mem, g);
    forall p: nat, v: nat | v < NVPN ensures SameAt(vm, vm2, p, v) {
      assert !Special(v) ==> ValidUse(Leaf(p, v));
      assert Names(vm2, Leaf(p, v)) == Names(vm, Leaf(p, v));
    }
  }

  lemma SetLeafView(ram: set<nat>, vm: Vm, owner: map<nat, Use>, loose: set<nat>, p: nat, vpn: nat, e: nat)
    requires Owned(ram, vm, owner, loose) && vpn < NVPN && LowOf(vm, p, I2(vpn), I1(vpn)) != 0
    ensures var f := LowOf(vm, p, I2(vpn), I1(vpn)); f in vm.mem && vm.mem[f].Table? && |vm.mem[f].ptes| == NPTE
    ensures I0(vpn) < NPTE
    ensures Outside(vm, SetPte(vm, LowOf(vm, p, I2(vpn), I1(vpn)), I0(vpn), e), p, vpn, vpn + 1)
  {
    Indices(vpn);
    LowTable(ram, vm, owner, loose, p, vpn);
    var f := LowOf(vm, p, I2(vpn), I1(vpn));
    var vm2 := SetPte(vm, f, I0(vpn), e);
    forall q: nat, v: nat | v < NVPN && !(q == p && v == vpn) ensures SameAt(vm, vm2, q, v) {
      SetLeaf(ram, vm, owner, loose, p, vpn, e, q, v);
      assert !Special(v) ==> ValidUse(Leaf(q, v)) && Names(vm, Leaf(q, v)) != f;
      hide Owned, LeafPte;
    }
  }

  /** The contents of the frames in `fs` are as they were. */
  ghost predicate Keeps(mem: map<nat, Page>, mem2: map<nat, Page>, fs: set<nat>) {
    forall f :: f in fs && f in mem ==> f in mem2 && mem2[f] == mem[f]
  }

  lemma KeepsOther(mem: map<nat, Page>, f: nat, page: Page, fs: set<nat>)
    requires f !in fs
    ensures Keeps(mem, mem[f := page], fs)
  {
  }

  lemma KeepsTrans(a: map<nat, Page>, b: map<nat, Page>, c: map<nat, Page>, fs: set<nat>, gs: set<nat>)
    requires Keeps(a, b, fs) && Keeps(b, c, gs) && fs <= gs
    ensures Keeps(a, c, fs)
  {
  }

  /** A frame in hand that holds a page of bytes. */
  ghost predicate IsPage(mem: map<nat, Page>, loose: set<nat>, f: nat) {
    f in loose && f in mem && mem[f].Bytes? && |mem[f].b| == PGSIZE
  }

  /** `perm | PTE_V`. */
  function Valid(perm: nat): (flags: nat)
    requires perm < 1024
    ensures flags < 1024 && Present(flags) && (Rwx(flags) <==> Rwx(perm))
  {
    if Present(perm) then perm else perm + PTE_V
  }

  /** The first `k` pages of a run from `vpn` map the consecutive frames from `f`. */
  ghost predicate Mapped(vm: Vm, vm2: Vm, p: nat, vpn: nat, k: nat, f: nat, flags: nat)
    requires flags < 1024
  {
    && Outside(vm, vm2, p, vpn, vpn + k)
    && (forall v: nat :: vpn <= v < vpn + k ==> LeafPte(vm2, p, v) == MakePte(f + (v - vpn), flags))
    && (forall v: nat :: vpn <= v < vpn + k && !Special(v) ==> PageAt(vm2, p, v) == BytesIn(vm.mem, f + (v - vpn)))
  }

  function BytesIn(mem: map<nat, Page>, f: nat): seq<byte> {
    if f in mem && mem[f].Bytes? then mem[f].b else []
  }

  /** The frames of the run that the table now owns. */
  ghost function Given(vpn: nat, k: nat, f: nat): set<nat> {
    set v | vpn <= v < vpn + k && !Special(v) :: f + (v - vpn)
  }

  lemma MappedNone(vm: Vm, p: nat, vpn: nat, f: nat, flags: nat)
    requires flags < 1024
    ensures Mapped(vm, vm, p, vpn, 0, f, flags)
  {
  }

  lemma GivenOne(vpn: nat, f: nat)
    requires !Special(vpn)
    ensures Given(vpn, 1, f) == {f}
  {
    assert f + 0 in Given(vpn, 1, f);
  }

  lemma MappedStep(vm: Vm, vm1: Vm, vm2: Vm, p: nat, vpn: nat, k: nat, f: nat, flags: nat)
    requires flags < 1024 && Mapped(vm, vm1, p, vpn, k, f, flags) && vpn + k < NVPN
    requires Outside(vm1, vm2, p, vpn + k, vpn + k + 1) && LeafPte(vm2, p, vpn + k) == MakePte(f + k, flags)
    requires !Special(vpn + k) ==> PageAt(vm2, p, vpn + k) == BytesIn(vm.mem, f + k)
    ensures Mapped(vm, vm2, p, vpn, k + 1, f, flags)
  {
    hide LeafPte, PageAt, MakePte, BytesIn, Outside, SameAt;
    OutsideTrans(vm, vm1, vm2, p, vpn, vpn + k, vpn + k + 1);
    forall v: nat | vpn <= v < vpn + k ensures LeafPte(vm2, p, v) == LeafPte(vm1, p, v) && (Special(v) || PageAt(vm2, p, v) == PageAt(vm1, p, v)) {
      OutsideAt(vm1, vm2, p, vpn + k, vpn + k + 1, v);
    }
  }

  lemma OutsideAt(vm: Vm, vm2: Vm, p: nat, lo: nat, hi: nat, v: nat)
    requires Outside(vm, vm2, p, lo, hi) && v < NVPN && !(lo <= v < hi)
    ensures LeafPte(vm2, p, v) == LeafPte(vm, p, v) && (Special(v) || PageAt(vm2, p, v) == PageAt(vm, p, v))
  {
    assert SameAt(vm, vm2, p, v);
    hide LeafPte, PageAt;
  }

  lemma MappedWalk(vm: Vm, vm1: Vm, vm2: Vm, p: nat, vpn: nat, k: nat, f: nat, flags: nat)
    requires flags < 1024 && Mapped(vm, vm1, p, vpn, k, f, flags) && vpn + k <= NVPN && SameView(vm1, vm2)
    ensures Mapped(vm, vm2, p, vpn, k, f, flags)
  {
    OutsideTrans(vm, vm1, vm2, p, vpn, vpn + k, vpn + k);
    hide LeafPte, PageAt, MakePte, BytesIn;
    forall v: nat | vpn <= v < vpn + k ensures LeafPte(vm2, p, v) == LeafPte(vm1, p, v) && (Special(v) || PageAt(vm2, p, v) == PageAt(vm1, p, v)) {
      assert SameAt(vm1, vm2, p, v);
    }
  }

  /** The next page of the run is still unmapped and its frame still in hand. */
  lemma MapReady(vm: Vm, vm2: Vm, p: nat, vpn: nat, n: nat, i: nat, f: nat, fs: set<nat>)
    requires Outside(vm, vm2, p, vpn, vpn + i) && i < n && vpn + n <= NVPN
        && Keeps(vm.mem, vm2.mem, fs - Given(vpn, i, f))
    requires forall v :: vpn <= v < vpn + n ==> !Present(LeafPte(vm, p, v))
    requires forall v :: vpn <= v < vpn + n && !Special(v) ==> IsPage(vm.mem, fs, f + (v - vpn))
    ensures !Present(LeafPte(vm2, p, vpn + i))
    ensures !Special(vpn + i) ==> IsPage(vm2.mem, fs - Given(vpn, i, f), f + i) && BytesIn(vm2.mem, f + i) == BytesIn(vm.mem, f + i)
    ensures Given(vpn, i + 1, f) == Given(vpn, i, f) + if Special(vpn + i) then {} else {f + i}
  {
    assert SameAt(vm, vm2, p, vpn + i);
    assert !Special(vpn + i) ==> IsPage(vm.mem, fs, f + (vpn + i - vpn));
    hide LeafPte, PageAt;
  }

  lemma KeepsSame(mem: map<nat, Page>, fs: set<nat>)
    ensures Keeps(mem, mem, fs)
  {
  }

  /** Pages `lo .. hi` of `p` are deleted from the flat map, and nothing else changed. */
  ghost predicate Deleted(vm: Vm, vm2: Vm, p: nat, lo: nat, hi: nat) {
    Outside(vm, vm2, p, lo, hi) && forall v: nat :: lo <= v < hi ==> !Present(LeafPte(vm2, p, v))
  }

  /** Some uses of frames by process `p` have ended, and no other use has changed. */
  ghost predicate Releases(owner: map<nat, Use>, owner2: map<nat, Use>, p: nat) {
    && (forall f :: f in owner2 ==> f in owner && owner2[f] == owner[f])
    && (forall f :: f in owner && owner[f].p != p ==> f in owner2)
  }

  lemma ReleasesOne(owner: map<nat, Use>, p: nat, g: nat)
    ensures Releases(owner, owner, p)
    ensures g in owner && owner[g].p == p ==> Releases(owner, owner - {g}, p)
  {
  }

  lemma ReleasesTrans(a: map<nat, Use>, b: map<nat, Use>, c: map<nat, Use>, p: nat)
    requires Releases(a, b, p) && Releases(b, c, p)
    ensures Releases(a, c, p)
  {
  }

  /** The frames pages `lo .. hi` are mapped to. */
  ghost function Held(vm: Vm, p: nat, lo: nat, hi: nat): set<nat> {
    set v: nat | lo <= v < hi && !Special(v) && Names(vm, Leaf(p, v)) != 0 :: Names(vm, Leaf(p, v))
  }

  lemma DeletedStep(vm: Vm, vm1: Vm, vm2: Vm, p: nat, lo: nat, mid: nat)
    requires Deleted(vm, vm1, p, lo, mid) && lo <= mid < NVPN && Outside(vm1, vm2, p, mid, mid + 1)
        && !Present(LeafPte(vm2, p, mid))
    ensures Deleted(vm, vm2, p, lo, mid + 1)
  {
    OutsideTrans(vm, vm1, vm2, p, lo, mid, mid + 1);
    hide LeafPte, PageAt, Present;
    forall v: nat | lo <= v < mid ensures LeafPte(vm2, p, v) == LeafPte(vm1, p, v) {
      assert SameAt(vm1, vm2, p, v);
    }
  }

  lemma DeletedSame(vm: Vm, vm1: Vm, vm2: Vm, p: nat, lo: nat, hi: nat)
    requires Deleted(vm, vm1, p, lo, hi) && SameView(vm1, vm2) && lo <= hi <= NVPN
    ensures Deleted(vm, vm2, p, lo, hi)
  {
    OutsideTrans(vm, vm1, vm2, p, lo, hi, hi);
    hide LeafPte, PageAt, Present;
    forall v: nat | lo <= v < hi ensures LeafPte(vm2, p, v) == LeafPte(vm1, p, v) {
      assert SameAt(vm1, vm2, p, v);
    }
  }

  lemma HeldStep(vm: Vm, vm1: Vm, p: nat, lo: nat, mid: nat)
    requires Outside(vm, vm1, p, lo, mid) && lo <= mid < NVPN
    ensures LeafPte(vm1, p, mid) == LeafPte(vm, p, mid) && Names(vm1, Leaf(p, mid)) == Names(vm, Leaf(p, mid))
    ensures var g := Names(vm, Leaf(p, mid)); Held(vm, p, lo, mid + 1) == Held(vm, p, lo, mid) + if Special(mid) || g == 0 then {} else {g}
  {
    assert SameAt(vm, vm1, p, mid);
    hide LeafPte, PageAt;
  }

  /** A page whose bytes are all `c`. */
  function Filled(c: byte): (b: seq<byte>)
    ensures |b| == PGSIZE && forall i :: 0 <= i < PGSIZE ==> b[i] == c
  {
    seq(PGSIZE, _ => c)
  }

  /** `PGROUNDUP(sz) / PGSIZE`. */
  function Up(sz: nat): nat {
    (sz + PGSIZE - 1) / PGSIZE
  }

  /** Pages `lo .. hi` are mapped to pages of zeros, and nothing else changed. */
  ghost predicate Zeroed(vm: Vm, vm2: Vm, p: nat, lo: nat, hi: nat, flags: nat) {
    && Outside(vm, vm2, p, lo, hi)
    && (forall v: nat :: lo <= v < hi ==> PageAt(vm2, p, v) == Filled(0))
    && (forall v: nat :: lo <= v < hi ==> Flags(LeafPte(vm2, p, v)) == flags)
  }

  lemma ZeroedNone(vm: Vm, p: nat, lo: nat, flags: nat)
    ensures Zeroed(vm, vm, p, lo, lo, flags)
  {
  }

  /** The next page is as it was. */
  lemma ZeroedNext(vm: Vm, vm1: Vm, p: nat, lo: nat, mid: nat, flags: nat)
    requires Zeroed(vm, vm1, p, lo, mid, flags) && lo <= mid < NVPN
    ensures LeafPte(vm1, p, mid) == LeafPte(vm, p, mid)
  {
    hide LeafPte, PageAt, Outside, SameAt, Filled, Flags;
    OutsideAt(vm, vm1, p, lo, mid, mid);
  }

  lemma ZeroedStep(vm: Vm, vm1: Vm, vm2: Vm, p: nat, lo: nat, mid: nat, flags: nat)
    requires Zeroed(vm, vm1, p, lo, mid, flags) && lo <= mid < TRAPFRAME && Outside(vm1, vm2, p, mid, mid + 1)
    requires PageAt(vm2, p, mid) == Filled(0) && Flags(LeafPte(vm2, p, mid)) == flags
    ensures Zeroed(vm, vm2, p, lo, mid + 1, flags)
  {
    hide LeafPte, PageAt, Flags, Outside, SameAt, Filled;
    OutsideTrans(vm, vm1, vm2, p, lo, mid, mid + 1);
    forall v: nat | lo <= v < mid ensures PageAt(vm2, p, v) == PageAt(vm1, p, v) && LeafPte(vm2, p, v) == LeafPte(vm1, p, v) {
      OutsideAt(vm1, vm2, p, mid, mid + 1, v);
    }
  }

  lemma ZeroedDeleted(vm: Vm, vm1: Vm, vm2: Vm, vm3: Vm, p: nat, lo: nat, mid: nat, hi: nat, flags: nat)
    requires Zeroed(vm, vm1, p, lo, mid, flags) && SameView(vm1, vm2) && Deleted(vm2, vm3, p, lo, mid)
        && lo <= mid <= hi <= NVPN
    requires forall v: nat :: lo <= v < hi ==> !Present(LeafPte(vm, p, v))
    ensures Deleted(vm, vm3, p, lo, hi)
  {
    hide LeafPte, PageAt, Present;
    forall q: nat, v: nat | v < NVPN && !(q == p && lo <= v < mid) ensures SameAt(vm, vm3, q, v) {
      assert SameAt(vm, vm1, q, v) && SameAt(vm1, vm2, q, v) && SameAt(vm2, vm3, q, v);
    }
    forall v: nat | mid <= v < hi ensures LeafPte(vm3, p, v) == LeafPte(vm, p, v) {
      assert SameAt(vm, vm3, p, v);
    }
  }

  lemma MappedOne(vm: Vm, vm2: Vm, vm3: Vm, p: nat, vpn: nat, f: nat, flags: nat)
    requires flags < 1024 && SameView(vm, vm2) && Mapped(vm2, vm3, p, vpn, 1, f, flags) && vpn < TRAPFRAME
    ensures Outside(vm, vm3, p, vpn, vpn + 1) && LeafPte(vm3, p, vpn) == MakePte(f, flags)
        && PageAt(vm3, p, vpn) == BytesIn(vm2.mem, f)
  {
    hide LeafPte, PageAt, MakePte;
    assert Outside(vm, vm2, p, vpn, vpn);
    OutsideTrans(vm, vm2, vm3, p, vpn, vpn, vpn + 1);
  }

  // ---------- processes ----------

  lemma SameTreesOwned(ram: set<nat>, vm: Vm, owner: map<nat, Use>, loose: set<nat>, vm2: Vm)
    requires Owned(ram, vm, owner, loose) && SameTrees(vm, vm2) && vm2.free == vm.free
    ensures Owned(ram, vm2, owner, loose)
  {
    SameTreesNames(vm, vm2);
    hide Names, Formed;
  }

  lemma SameRootAt(vm: Vm, vm2: Vm, q: nat, v: nat)
    requires vm2.mem == vm.mem && RootOf(vm2, q) == RootOf(vm, q)
    ensures SameAt(vm, vm2, q, v)
  {
  }

  /** Process `p` gets a trapframe page. */
  lemma TrapOwned(ram: set<nat>, vm: Vm, owner: map<nat, Use>, loose: set<nat>, p: nat, f: nat)
    requires Owned(ram, vm, owner, loose) && p in vm.procs && vm.procs[p].trapframe == 0 && IsPage(vm.mem, loose, f)
    ensures var vm2 := vm.(procs := vm.procs[p := vm.procs[p].(trapframe := f)]);
            Owned(ram, vm2, owner[f := Trap(p)], loose - {f}) && SameView(vm, vm2)
  {
    var vm2 := vm.(procs := vm.procs[p := vm.procs[p].(trapframe := f)]);
    forall u | ValidUse(u) ensures Names(vm2, u) == if u == Trap(p) then f else Names(vm, u) {
      if u.Trap? { } else { SameRootNames(vm, vm2, u); }
    }
    forall q: nat, v: nat | v < NVPN ensures SameAt(vm, vm2, q, v) {
      SameRootAt(vm, vm2, q, v);
    }
    assert Names(vm, Trap(p)) == 0 && f != 0;
    hide Names, SameAt;
  }

  lemma SameRootNames(vm: Vm, vm2: Vm, u: Use)
    requires vm2.mem == vm.mem && RootOf(vm2, u.p) == RootOf(vm, u.p) && !u.Trap?
    ensures Names(vm2, u) == Names(vm, u)
  {
  }

  /** ... and gives it up. */
  lemma UntrapOwned(ram: set<nat>, vm: Vm, owner: map<nat, Use>, loose: set<nat>, p: nat)
    requires Owned(ram, vm, owner, loose) && p in vm.procs && vm.procs[p].trapframe != 0
    ensures var f, vm2 := vm.procs[p].trapframe, vm.(procs := vm.procs[p := vm.procs[p].(trapframe := 0)]);
            f in owner && owner[f] == Trap(p) && Owned(ram, vm2, owner - {f}, loose + {f}) && SameView(vm, vm2)
  {
    var f, vm2 := vm.procs[p].trapframe, vm.(procs := vm.procs[p := vm.procs[p].(trapframe := 0)]);
    assert Names(vm, Trap(p)) == f;
    forall u | ValidUse(u) ensures Names(vm2, u) == if u == Trap(p) then 0 else Names(vm, u) {
      if u.Trap? { } else { SameRootNames(vm, vm2, u); }
    }
    forall q: nat, v: nat | v < NVPN ensures SameAt(vm, vm2, q, v) {
      SameRootAt(vm, vm2, q, v);
    }
    hide Names, SameAt, Formed;
  }

  /** Process `p` gets an empty page table. */
  lemma RootOwned(ram: set<nat>, vm: Vm, owner: map<nat, Use>, loose: set<nat>, p: nat, f: nat)
    requires Owned(ram, vm, owner, loose) && p in vm.procs && vm.procs[p].root == 0
    requires f in loose && f in vm.mem && vm.mem[f] == Table(Zeros())
    ensures var vm2 := vm.(procs := vm.procs[p := vm.procs[p].(root := f)]);
            Owned(ram, vm2, owner[f := Root(p)], loose - {f}) && SameView(vm, vm2)
    ensures forall v: nat :: LeafPte(vm, p, v) == 0
  {
    var vm2 := vm.(procs := vm.procs[p := vm.procs[p].(root := f)]);
    assert f != 0 && 0 !in vm.mem;
    forall u | ValidUse(u) ensures Names(vm2, u) == if u == Root(p) then f else Names(vm, u) {
      if u.Trap? { } else if u.p != p { SameRootNames(vm, vm2, u); } else { EmptyRoot(vm, p, u, 0); EmptyRoot(vm2, p, u, 0); }
    }
    forall q: nat, v: nat | v < NVPN ensures SameAt(vm, vm2, q, v) {
      if q != p { SameRootAt(vm, vm2, q, v); } else { EmptyRoot(vm, p, Root(p), v); EmptyRoot(vm2, p, Root(p), v); }
    }
    forall v: nat ensures LeafPte(vm, p, v) == 0 {
      EmptyRoot(vm, p, Root(p), v);
    }
    assert Formed(vm.mem[f], Root(p));
    assert Names(vm, Root(p)) == 0;
    hide Names, SameAt, LeafPte, Formed;
  }

  /** A root that is missing or all zero leads nowhere. */
  lemma EmptyRoot(vm: Vm, p: nat, u: Use, v: nat)
    requires 0 !in vm.mem && (RootOf(vm, p) == 0 || (RootOf(vm, p) in vm.mem && vm.mem[RootOf(vm, p)] == Table(Zeros())))
    requires u.p == p && !u.Trap?
    ensures u == Root(p) || Names(vm, u) == 0
    ensures LeafPte(vm, p, v) == 0 && PageAt(vm, p, v) == []
  {
    assert forall i: nat :: Pte(vm, RootOf(vm, p), i) == 0;
  }

  /** `PTE_R | PTE_U | xperm`. */
  function UserPerm(xperm: nat): (perm: nat)
    requires xperm in {0, PTE_W, PTE_X}
    ensures perm < 1024 && Rwx(perm) && Valid(perm) == PTE_V + PTE_R + PTE_U + xperm
  {
    PTE_R + PTE_U + xperm
  }

  // ---------- tearing down a table ----------

  /** The table frames of process `p`. */
  ghost function Tables(owner: map<nat, Use>, p: nat): map<nat, Use> {
    map f | f in owner && owner[f].p == p && IsTable(owner[f]) :: owner[f]
  }

  ghost predicate AllUnmapped(vm: Vm, p: nat) {
    forall v: nat :: v < NVPN ==> !Present(LeafPte(vm, p, v))
  }

  lemma UnrootOwned(ram: set<nat>, vm: Vm, owner: map<nat, Use>, loose: set<nat>, p: nat)
    requires Owned(ram, vm, owner, loose) && p in vm.procs && AllUnmapped(vm, p)
    ensures var vm2, uses := vm.(procs := vm.procs[p := vm.procs[p].(root := 0)]), Tables(owner, p);
            Owned(ram, vm2, owner - uses.Keys, loose + uses.Keys) && Outside(vm, vm2, p, 0, NVPN)
  {
    var vm2, uses := vm.(procs := vm.procs[p := vm.procs[p].(root := 0)]), Tables(owner, p);
    assert 0 !in vm.mem;
    forall u | ValidUse(u) ensures Names(vm2, u) == if u.p == p && IsTable(u) then 0 else Names(vm, u) {
      if u.Trap? { } else if u.p != p { SameRootNames(vm, vm2, u); } else { EmptyRoot(vm2, p, u, 0); }
    }
    UnrootUses(ram, vm, owner, loose, vm2, p);
    hide Owned, Names, SameAt, LeafPte, Present;
    forall q: nat, v: nat | v < NVPN && q != p ensures SameAt(vm, vm2, q, v) {
      SameRootAt(vm, vm2, q, v);
    }
  }

  lemma UnrootUses(ram: set<nat>, vm: Vm, owner: map<nat, Use>, loose: set<nat>, vm2: Vm, p: nat)
    requires Owned(ram, vm, owner, loose) && vm2.mem == vm.mem && vm2.free == vm.free
    requires forall u :: ValidUse(u) ==> Names(vm2, u) == if u.p == p && IsTable(u) then 0 else Names(vm, u)
    ensures var uses := Tables(owner, p); Owned(ram, vm2, owner - uses.Keys, loose + uses.Keys)
  {
    hide Names, ValidUse, Formed;
  }

  function Sub(u: Use, i: nat): Use
    requires u.Root? || u.Mid?
  {
    if u.Root? then Mid(u.p, i) else Low(u.p, u.i2, i)
  }

  /** `uses` is the tree of tables of one process in `vm`, with nothing mapped. */
  ghost predicate Standing(vm: Vm, uses: map<nat, Use>) {
    && 0 !in vm.mem
    && (forall f :: f in uses ==>
          && IsTable(uses[f]) && ValidUse(uses[f]) && Names(vm, uses[f]) == f
          && f in vm.mem && vm.mem[f].Table? && |vm.mem[f].ptes| == NPTE)
    && (forall f, i: nat :: f in uses && i < NPTE && Present(Pte(vm, f, i)) ==>
          !uses[f].Low? && !Rwx(Pte(vm, f, i)) && Child(vm, f, i) in uses && uses[Child(vm, f, i)] == Sub(uses[f], i))
  }

  lemma StandingTables(ram: set<nat>, vm: Vm, owner: map<nat, Use>, loose: set<nat>, p: nat)
    requires Owned(ram, vm, owner, loose) && AllUnmapped(vm, p)
    ensures Standing(vm, Tables(owner, p))
  {
    var uses := Tables(owner, p);
    forall f, i: nat | f in uses && i < NPTE && Present(Pte(vm, f, i))
      ensures !uses[f].Low? && !Rwx(Pte(vm, f, i)) && Child(vm, f, i) in uses
          && uses[Child(vm, f, i)] == Sub(uses[f], i) {
      StandingEntry(ram, vm, owner, loose, p, f, i);
    }
    hide Names, Present, Rwx, LeafPte;
  }

  lemma LowEntry(vm: Vm, u: Use, f: nat, i: nat)
    requires u.Low? && ValidUse(u) && Names(vm, u) == f && i < NPTE
    ensures Vpn(u.i2, u.i1, i) < NVPN && LeafPte(vm, u.p, Vpn(u.i2, u.i1, i)) == Pte(vm, f, i)
  {
    IndicesOf(u.i2, u.i1, i);
    Indices(Vpn(u.i2, u.i1, i));
  }

  lemma StandingEntry(ram: set<nat>, vm: Vm, owner: map<nat, Use>, loose: set<nat>, p: nat, f: nat, i: nat)
    requires Owned(ram, vm, owner, loose) && AllUnmapped(vm, p)
    requires f in owner && owner[f].p == p && IsTable(owner[f]) && i < NPTE && Present(Pte(vm, f, i))
    ensures !owner[f].Low? && !Rwx(Pte(vm, f, i)) && Child(vm, f, i) in owner
        && owner[Child(vm, f, i)] == Sub(owner[f], i)
  {
    var u := owner[f];
    assert Formed(vm.mem[f], u) && Names(vm, u) == f;
    assert vm.mem[f].ptes[i] == Pte(vm, f, i);
    if u.Low? {
      LowEntry(vm, u, f, i);
      assert false;
    }
    assert Names(vm, Sub(u, i)) == Child(vm, f, i) && ValidUse(Sub(u, i));
    PresentFrame(ram, vm, owner, loose, f, i);
  }

  /** `w` is `u` or a table below it. */
  predicate Under(w: Use, u: Use) {
    w == u || (u.Root? && IsTable(w) && w.p == u.p) || (u.Mid? && w.Low? && w.p == u.p && w.i2 == u.i2)
  }

  ghost function Subtree(uses: map<nat, Use>, u: Use): set<nat> {
    set g | g in uses && Under(uses[g], u)
  }

  /** The frames of the first `i` subtrees below `u`. */
  ghost function Branches(uses: map<nat, Use>, u: Use, i: nat): set<nat>
    requires IsTable(u)
  {
    set g | g in uses && uses[g] != u && IsTable(uses[g]) && Under(uses[g], u) && Branch(u, uses[g]) < i
  }

  /** The entry of table `u` through which a table `w` below it is reached. */
  function Branch(u: Use, w: Use): nat
    requires IsTable(u) && IsTable(w) && Under(w, u) && w != u
  {
    if u.Root? then w.i2 else w.i1
  }

  lemma UnderEntry(vm: Vm, uses: map<nat, Use>, f: nat, u: Use, g: nat)
    requires Standing(vm, uses) && f in uses && uses[f] == u && g in uses && Under(uses[g], u) && uses[g] != u
    ensures Present(Pte(vm, f, Branch(u, uses[g])))
  {
    assert Names(vm, u) == f && Names(vm, uses[g]) == g && 0 !in vm.mem;
    hide Standing, Present;
  }

  lemma BranchesStep(vm: Vm, uses: map<nat, Use>, f: nat, u: Use, i: nat)
    requires Standing(vm, uses) && f in uses && uses[f] == u && i < NPTE
    ensures !Present(Pte(vm, f, i)) ==> Branches(uses, u, i + 1) == Branches(uses, u, i)
    ensures Present(Pte(vm, f, i)) ==> !u.Low? && Branches(uses, u, i + 1) == Branches(uses, u, i) + Subtree(uses, Sub(u, i))
    ensures Present(Pte(vm, f, i)) ==> f !in Subtree(uses, Sub(u, i)) && Branches(uses, u, i) !! Subtree(uses, Sub(u, i))
  {
    forall g | g in uses && IsTable(uses[g]) && Under(uses[g], u) && uses[g] != u ensures Present(Pte(vm, f, Branch(u, uses[g]))) {
      UnderEntry(vm, uses, f, u, g);
    }
    assert !u.Low? ==> Names(vm, Sub(u, i)) == Child(vm, f, i);
    hide Standing, Names, Pte, Present;
  }

  lemma BranchesAll(vm: Vm, uses: map<nat, Use>, f: nat, u: Use)
    requires Standing(vm, uses) && f in uses && uses[f] == u
    ensures Branches(uses, u, 0) == {} && f !in Branches(uses, u, NPTE)
    ensures Subtree(uses, u) == Branches(uses, u, NPTE) + {f}
  {
    hide Present, Rwx, Pte;
  }

  lemma StandingTable(vm: Vm, uses: map<nat, Use>, f: nat)
    requires Standing(vm, uses) && f in uses
    ensures f in vm.mem && vm.mem[f].Table? && |vm.mem[f].ptes| == NPTE && f in Subtree(uses, uses[f])
        && IsTable(uses[f])
  {
  }

  lemma StandingChild(vm: Vm, uses: map<nat, Use>, f: nat, i: nat)
    requires Standing(vm, uses) && f in uses && i < NPTE && Present(Pte(vm, f, i))
    ensures !uses[f].Low? && !Rwx(Pte(vm, f, i)) && Frame(Pte(vm, f, i)) in uses
        && uses[Frame(Pte(vm, f, i))] == Sub(uses[f], i)
  {
    hide Names;
  }

  /** The subtree below entry `i` has not been touched yet. */
  lemma SubtreeReady(vm: Vm, uses: map<nat, Use>, f: nat, i: nat, m0: map<nat, Page>, m1: map<nat, Page>,
      fs: set<nat>, loose: set<nat>)
    requires Standing(vm, uses) && f in uses && i < NPTE && Present(Pte(vm, f, i)) && !uses[f].Low? && IsTable(uses[f])
    requires Subtree(uses, uses[f]) <= fs && loose == fs - Branches(uses, uses[f], i)
    requires Keeps(vm.mem, m0, Subtree(uses, uses[f])) && Keeps(m0, m1, loose - {f})
    ensures Subtree(uses, Sub(uses[f], i)) <= loose && f !in Subtree(uses, Sub(uses[f], i))
    ensures Keeps(vm.mem, m1, Subtree(uses, Sub(uses[f], i)))
  {
    BranchesStep(vm, uses, f, uses[f], i);
    hide Standing, Present, Pte;
    assert Subtree(uses, Sub(uses[f], i)) <= Subtree(uses, uses[f]);
    forall g | g in Subtree(uses, Sub(uses[f], i)) && g in vm.mem ensures g in m1 && m1[g] == vm.mem[g] {
      assert g in Subtree(uses, uses[f]) && g in loose - {f};
    }
  }

  lemma KeepsSub(mem: map<nat, Page>, mem2: map<nat, Page>, fs: set<nat>, gs: set<nat>)
    requires Keeps(mem, mem2, fs) && gs <= fs
    ensures Keeps(mem, mem2, gs)
  {
  }

  lemma KeepsAt(mem: map<nat, Page>, mem2: map<nat, Page>, fs: set<nat>, f: nat)
    requires Keeps(mem, mem2, fs) && f in fs && f in mem
    ensures f in mem2 && mem2[f] == mem[f]
  {
  }

  lemma TreeRoot(ram: set<nat>, vm: Vm, owner: map<nat, Use>, loose: set<nat>, p: nat)
    requires Owned(ram, vm, owner, loose) && RootOf(vm, p) != 0
    ensures var uses := Tables(owner, p);
            && RootOf(vm, p) in uses && uses[RootOf(vm, p)] == Root(p) && Subtree(uses, Root(p)) == uses.Keys
            && uses.Keys !! loose && Releases(owner, owner - uses.Keys, p)
  {
    assert ValidUse(Root(p)) && Names(vm, Root(p)) == RootOf(vm, p);
    hide Names;
  }

  // ---------- where a process may have pages ----------

  const SHMEM: nat := 0x60000   // 0x60000000 / PGSIZE
  const ROPAGE: nat := 0x50000
  const REGION: nat := 0x70000
  const NPROC: nat := 64
  const MAXSZ: nat := TRAPFRAME * PGSIZE

  /** Pages below the size, in the region, or the two at the top. */
  predicate Allowed(pr: Proc, v: nat) {
    v < Up(pr.sz) || pr.rstart <= v < pr.rstart + pr.rpages || Special(v)
  }

  ghost predicate Confined(vm: Vm, p: nat) {
    && p in vm.procs && vm.procs[p].root != 0 && vm.procs[p].sz <= MAXSZ && Up(vm.procs[p].sz) <= TRAPFRAME
    && (vm.procs[p].rpages > 0 ==> vm.procs[p].rstart == REGION) && vm.procs[p].rstart + vm.procs[p].rpages <= TRAPFRAME
    && forall v: nat :: v < NVPN && Present(LeafPte(vm, p, v)) ==> Allowed(vm.procs[p], v)
  }

  /** Fewer pages are mapped for `p`, and none of `lo .. hi`. */
  ghost predicate Shrunk(vm: Vm, vm2: Vm, p: nat, lo: nat, hi: nat) {
    forall v: nat :: v < NVPN && Present(LeafPte(vm2, p, v)) ==> Present(LeafPte(vm, p, v)) && !(lo <= v < hi)
  }

  lemma DeletedShrunk(vm: Vm, vm2: Vm, p: nat, lo: nat, hi: nat)
    requires Deleted(vm, vm2, p, lo, hi)
    ensures Shrunk(vm, vm2, p, lo, hi)
  {
    hide LeafPte, PageAt, Present;
    forall v: nat | v < NVPN && Present(LeafPte(vm2, p, v)) ensures Present(LeafPte(vm, p, v)) && !(lo <= v < hi) {
      if !(lo <= v < hi) { assert SameAt(vm, vm2, p, v); }
    }
  }

  /** What `freeproc` does not give back: the frames mapped at two fixed addresses. */
  ghost function Leaked(vm: Vm, p: nat): set<nat> {
    Held(vm, p, SHMEM, SHMEM + 1) + Held(vm, p, ROPAGE, ROPAGE + 1)
  }

  lemma HeldSame(vm: Vm, vm2: Vm, p: nat, lo: nat, hi: nat, v: nat)
    requires Outside(vm, vm2, p, lo, hi) && v < NVPN && !(lo <= v < hi)
    ensures Held(vm2, p, v, v + 1) == Held(vm, p, v, v + 1)
  {
    assert SameAt(vm, vm2, p, v);
    hide LeafPte, PageAt;
  }

  lemma OutsideWiden(vm: Vm, vm1: Vm, vm2: Vm, p: nat, lo: nat, hi: nat)
    requires Outside(vm, vm1, p, 0, NVPN) && (Outside(vm1, vm2, p, lo, hi) || SameView(vm1, vm2))
    ensures Outside(vm, vm2, p, 0, NVPN)
  {
    forall q: nat, v: nat | v < NVPN && q != p ensures SameAt(vm, vm2, q, v) {
      assert SameAt(vm, vm1, q, v) && SameAt(vm1, vm2, q, v);
    }
  }

  lemma DeletedNone(vm: Vm, p: nat)
    ensures Deleted(vm, vm, p, 0, 0) && Up(0) == 0
  {
  }

  lemma HeldSpecial(vm: Vm, p: nat, v: nat)
    requires Special(v)
    ensures Held(vm, p, v, v + 1) == {}
  {
  }

  /** After the five unmappings of `proc_freepagetable` no page is mapped. */
  lemma NothingLeft(s0: Vm, s1: Vm, s2: Vm, s3: Vm, s4: Vm, s5: Vm, p: nat, n: nat)
    requires forall v: nat :: v < NVPN && Present(LeafPte(s0, p, v)) ==> v < n || v == SHMEM || v == ROPAGE || Special(v)
    requires Deleted(s0, s1, p, SHMEM, SHMEM + 1) && Deleted(s1, s2, p, ROPAGE, ROPAGE + 1)
    requires Deleted(s2, s3, p, TRAMPOLINE, TRAMPOLINE + 1) && Deleted(s3, s4, p, TRAPFRAME, TRAPFRAME + 1)
    requires Deleted(s4, s5, p, 0, n)
    ensures AllUnmapped(s5, p) && Outside(s0, s5, p, 0, NVPN)
  {
    hide LeafPte, Present, SameAt;
    DeletedShrunk(s0, s1, p, SHMEM, SHMEM + 1);
    DeletedShrunk(s1, s2, p, ROPAGE, ROPAGE + 1);
    DeletedShrunk(s2, s3, p, TRAMPOLINE, TRAMPOLINE + 1);
    DeletedShrunk(s3, s4, p, TRAPFRAME, TRAPFRAME + 1);
    DeletedShrunk(s4, s5, p, 0, n);
    assert Outside(s0, s1, p, 0, NVPN);
    OutsideWiden(s0, s1, s2, p, ROPAGE, ROPAGE + 1);
    OutsideWiden(s0, s2, s3, p, TRAMPOLINE, TRAMPOLINE + 1);
    OutsideWiden(s0, s3, s4, p, TRAPFRAME, TRAPFRAME + 1);
    OutsideWiden(s0, s4, s5, p, 0, n);
    hide Deleted, Outside;
  }

  /** Giving up the region leaves only pages that `proc_freepagetable` deals with. */
  lemma AfterRegion(vm: Vm, vm2: Vm, p: nat)
    requires Confined(vm, p) && Deleted(vm, vm2, p, vm.procs[p].rstart, vm.procs[p].rstart + vm.procs[p].rpages)
    ensures forall v: nat :: v < NVPN && Present(LeafPte(vm2, p, v)) ==> v < Up(vm.procs[p].sz) || v == SHMEM || v == ROPAGE || Special(v)
    ensures Leaked(vm2, p) == Leaked(vm, p)
  {
    var pr := vm.procs[p];
    hide LeafPte, Present;
    DeletedShrunk(vm, vm2, p, pr.rstart, pr.rstart + pr.rpages);
    HeldSame(vm, vm2, p, pr.rstart, pr.rstart + pr.rpages, SHMEM);
    HeldSame(vm, vm2, p, pr.rstart, pr.rstart + pr.rpages, ROPAGE);
    hide Held;
  }

  lemma LeakedSame(vm: Vm, vm2: Vm, p: nat)
    requires SameView(vm, vm2)
    ensures Leaked(vm2, p) == Leaked(vm, p)
  {
    hide LeafPte, PageAt, Held;
    assert Outside(vm, vm2, p, 0, 0);
    HeldSame(vm, vm2, p, 0, 0, SHMEM);
    HeldSame(vm, vm2, p, 0, 0, ROPAGE);
  }

  lemma ConfinedSame(vm: Vm, vm2: Vm, p: nat)
    requires Confined(vm, p) && SameView(vm, vm2) && p in vm2.procs && vm2.procs[p].root == vm.procs[p].root
    requires vm2.procs[p].sz == vm.procs[p].sz && vm2.procs[p].rstart == vm.procs[p].rstart
        && vm2.procs[p].rpages == vm.procs[p].rpages
    ensures Confined(vm2, p)
  {
    hide LeafPte, Present, PageAt;
    forall v: nat | v < NVPN ensures LeafPte(vm2, p, v) == LeafPte(vm, p, v) {
      assert SameAt(vm, vm2, p, v);
    }
  }

  /** Nothing of a process without trapframe and page table is in use. */
  lemma NoneLeft(ram: set<nat>, vm: Vm, owner: map<nat, Use>, loose: set<nat>, p: nat)
    requires Owned(ram, vm, owner, loose) && RootOf(vm, p) == 0 && TrapOf(vm, p) == 0
    ensures forall f :: f in owner ==> owner[f].p != p
  {
    forall f | f in owner ensures owner[f].p != p {
      var u := owner[f];
      assert Names(vm, u) == f && f in vm.mem;
      if u.p == p && !u.Trap? {
        EmptyRoot(vm, p, u, 0);
      }
    }
  }

  /** What a process gave up is what the free list and the loose frames gained. */
  lemma GivenBack(ram: set<nat>, vm: Vm, owner: map<nat, Use>, loose: set<nat>, vm2: Vm, owner2: map<nat, Use>,
      loose2: set<nat>, p: nat, leak: set<nat>)
    requires Owned(ram, vm, owner, loose) && Owned(ram, vm2, owner2, loose2) && loose2 == loose + leak
        && Releases(owner, owner2, p)
    requires forall f :: f in owner2 ==> owner2[f].p != p
    requires forall f :: f in leak ==> f in owner && owner[f].p == p
    ensures forall f :: f in vm2.free <==> f in vm.free || (f in owner && owner[f].p == p && f !in leak)
  {
    hide Names, Formed;
  }

  lemma LeakedOwned(ram: set<nat>, vm: Vm, owner: map<nat, Use>, loose: set<nat>, p: nat)
    requires Owned(ram, vm, owner, loose)
    ensures forall f :: f in Leaked(vm, p) ==> f in owner && owner[f] in {Leaf(p, SHMEM), Leaf(p, ROPAGE)}
  {
    assert ValidUse(Leaf(p, SHMEM)) && ValidUse(Leaf(p, ROPAGE));
    hide Names;
  }

  lemma NotLoose(ram: set<nat>, vm: Vm, owner: map<nat, Use>, loose: set<nat>, f: nat)
    requires Owned(ram, vm, owner, loose)
    ensures f in owner ==> f !in loose && f !in vm.free && f != 0
  {
    hide Names, Formed;
  }

  lemma LeakedNone(ram: set<nat>, vm: Vm, owner: map<nat, Use>, loose: set<nat>, p: nat)
    requires Owned(ram, vm, owner, loose) && RootOf(vm, p) == 0
    ensures Leaked(vm, p) == {}
  {
    EmptyRoot(vm, p, Leaf(p, SHMEM), 0);
    EmptyRoot(vm, p, Leaf(p, ROPAGE), 0);
  }

  const PERM_RX: nat := PTE_R + PTE_X
  const PERM_RW: nat := PTE_R + PTE_W

  /** A new page table: trampoline and trapframe, and no user memory. */
  ghost predicate Blank(vm: Vm, p: nat, trampoline: nat) {
    && p in vm.procs && vm.procs[p].root != 0
    && LeafPte(vm, p, TRAMPOLINE) == MakePte(trampoline, PTE_V + PERM_RX)
    && LeafPte(vm, p, TRAPFRAME) == MakePte(vm.procs[p].trapframe, PTE_V + PERM_RW)
    && forall v: nat :: v < NVPN && !Special(v) ==> !Present(LeafPte(vm, p, v))
  }

  lemma BlankMapped(s1: Vm, s2: Vm, s3: Vm, p: nat, t: nat, f: nat)
    requires forall v: nat :: v < NVPN ==> !Present(LeafPte(s1, p, v))
    requires Mapped(s1, s2, p, TRAMPOLINE, 1, t, PTE_V + PERM_RX) && Mapped(s2, s3, p, TRAPFRAME, 1, f, PTE_V + PERM_RW)
    requires p in s3.procs && s3.procs[p].root != 0 && s3.procs[p].trapframe == f
    ensures Blank(s3, p, t) && Outside(s1, s3, p, 0, NVPN)
  {
    hide LeafPte, Present, PageAt, MakePte;
    forall v: nat | v < NVPN && v != TRAPFRAME && v != TRAMPOLINE ensures LeafPte(s3, p, v) == LeafPte(s1, p, v) {
      assert SameAt(s1, s2, p, v) && SameAt(s2, s3, p, v);
    }
    assert SameAt(s2, s3, p, TRAMPOLINE);
    assert Outside(s1, s2, p, 0, NVPN);
    OutsideWiden(s1, s2, s3, p, TRAPFRAME, TRAPFRAME + 1);
  }

  /** A process that does not exist maps nothing. */
  lemma AbsentSame(ram: set<nat>, vm: Vm, owner: map<nat, Use>, loose: set<nat>, vm2: Vm, owner2: map<nat, Use>, p: nat)
    requires Owned(ram, vm, owner, loose) && Owned(ram, vm2, owner2, loose) && Outside(vm, vm2, p, 0, NVPN)
    requires RootOf(vm, p) == 0 && RootOf(vm2, p) == 0
    ensures SameView(vm, vm2)
  {
    assert 0 !in vm.mem && 0 !in vm2.mem;
    hide Owned;
    forall q: nat, v: nat | v < NVPN ensures SameAt(vm, vm2, q, v) {
      if q == p {
        EmptyRoot(vm, p, Root(p), v);
        EmptyRoot(vm2, p, Root(p), v);
      }
    }
  }

  lemma NoTable(ram: set<nat>, vm: Vm, owner: map<nat, Use>, loose: set<nat>, p: nat)
    requires Owned(ram, vm, owner, loose) && RootOf(vm, p) == 0
    ensures forall v: nat :: LeafPte(vm, p, v) == 0
  {
    assert 0 !in vm.mem;
    hide Owned;
    forall v: nat ensures LeafPte(vm, p, v) == 0 {
      EmptyRoot(vm, p, Root(p), v);
    }
  }

  lemma PermSpecial()
    ensures Rwx(PERM_RX) && Rwx(PERM_RW) && Valid(PERM_RX) == PTE_V + PERM_RX && Valid(PERM_RW) == PTE_V + PERM_RW
    ensures !Present(0)
  {
  }

  lemma GivenSpecial(v: nat, k: nat, f: nat)
    requires Special(v) && k <= 1
    ensures Given(v, k, f) == {}
  {
  }

  lemma BlankStart(vm: Vm, s1: Vm, p: nat)
    requires SameView(vm, s1) && forall v: nat :: LeafPte(vm, p, v) == 0
    ensures AllUnmapped(s1, p)
  {
    hide LeafPte, PageAt;
    forall v: nat | v < NVPN ensures LeafPte(s1, p, v) == 0 {
      assert SameAt(vm, s1, p, v);
    }
  }

  lemma BlankUndo(s1: Vm, s2: Vm, p: nat)
    requires AllUnmapped(s1, p) && Outside(s1, s2, p, TRAMPOLINE, TRAMPOLINE)
    ensures AllUnmapped(s2, p)
  {
    hide LeafPte, PageAt, Present;
    forall v: nat | v < NVPN ensures LeafPte(s2, p, v) == LeafPte(s1, p, v) {
      assert SameAt(s1, s2, p, v);
    }
  }

  lemma BlankNext(s1: Vm, s2: Vm, p: nat)
    requires AllUnmapped(s1, p) && Outside(s1, s2, p, TRAMPOLINE, TRAMPOLINE + 1)
    ensures !Present(LeafPte(s2, p, TRAPFRAME))
  {
    hide LeafPte, PageAt, Present;
    assert SameAt(s1, s2, p, TRAPFRAME);
  }

  lemma BlankUndo2(s1: Vm, s2: Vm, s3: Vm, s4: Vm, p: nat)
    requires AllUnmapped(s1, p) && Outside(s1, s2, p, TRAMPOLINE, TRAMPOLINE + 1)
        && Outside(s2, s3, p, TRAPFRAME, TRAPFRAME)
    requires Deleted(s3, s4, p, TRAMPOLINE, TRAMPOLINE + 1)
    ensures AllUnmapped(s4, p)
  {
    hide LeafPte, PageAt, Present;
    forall v: nat | v < NVPN && v != TRAMPOLINE ensures LeafPte(s4, p, v) == LeafPte(s1, p, v) {
      assert SameAt(s1, s2, p, v) && SameAt(s2, s3, p, v) && SameAt(s3, s4, p, v);
    }
  }

  /** Every process has a page table with pages only where they belong. */
  ghost predicate Tidy(vm: Vm) {
    forall p: nat :: p in vm.procs ==> Confined(vm, p)
  }

  ghost predicate OthersSame(vm: Vm, vm2: Vm, p: nat) {
    forall q: nat :: q != p ==> (q in vm2.procs <==> q in vm.procs) && (q in vm.procs ==> vm2.procs[q] == vm.procs[q])
  }

  lemma TidyStep(vm: Vm, vm2: Vm, p: nat, lo: nat, hi: nat)
    requires Tidy(vm) && OthersSame(vm, vm2, p) && Outside(vm, vm2, p, lo, hi) && (p in vm2.procs ==> Confined(vm2, p))
    ensures Tidy(vm2)
  {
    forall q: nat | q in vm2.procs && q != p ensures Confined(vm2, q) {
      assert Confined(vm, q);
      hide LeafPte, PageAt, Present, Tidy;
      forall v: nat | v < NVPN ensures LeafPte(vm2, q, v) == LeafPte(vm, q, v) {
        assert SameAt(vm, vm2, q, v);
      }
    }
  }

  lemma BlankConfined(vm: Vm, p: nat, t: nat)
    requires Blank(vm, p, t) && vm.procs[p].sz == 0 && vm.procs[p].rpages == 0 && vm.procs[p].rstart == 0
    ensures Confined(vm, p)
  {
    hide LeafPte, Present, MakePte;
  }

  /** One page added where it is allowed. */
  lemma ConfinedAdd(vm: Vm, vm2: Vm, p: nat, v: nat)
    requires Confined(vm, p) && Outside(vm, vm2, p, v, v + 1) && vm2.procs == vm.procs && Allowed(vm.procs[p], v)
    ensures Confined(vm2, p)
  {
    hide LeafPte, PageAt, Present;
    forall w: nat | w < NVPN && w != v ensures LeafPte(vm2, p, w) == LeafPte(vm, p, w) {
      assert SameAt(vm, vm2, p, w);
    }
  }

  lemma BelowSize(va: nat, sz: nat)
    requires va < sz
    ensures va / PGSIZE < Up(sz)
  {
  }

  predicate InRegion(pr: Proc, v: nat) {
    pr.rstart <= v < pr.rstart + pr.rpages
  }

  lemma RegionPages(va: nat, rstart: nat, rpages: nat)
    ensures rstart * PGSIZE <= va < (rstart + rpages) * PGSIZE <==> rstart <= va / PGSIZE < rstart + rpages
  {
  }

  /** The page was not mapped and now is: to the region's filler or to zeros. */
  ghost predicate FaultServed(vm: Vm, vm2: Vm, p: nat, v: nat)
    requires p in vm.procs
  {
    && v < TRAPFRAME && Allowed(vm.procs[p], v) && !Present(LeafPte(vm, p, v))
    && Outside(vm, vm2, p, v, v + 1) && PageAt(vm2, p, v) == Filled(if InRegion(vm.procs[p], v) then 65 else 0)
    && Flags(LeafPte(vm2, p, v)) == PTE_V + PTE_R + PTE_U + PTE_W
  }

  lemma FaultServedSame(vm: Vm, s1: Vm, s2: Vm, p: nat, v: nat)
    requires p in vm.procs && FaultServed(vm, s1, p, v) && SameView(s1, s2)
    ensures FaultServed(vm, s2, p, v)
  {
    hide LeafPte, PageAt, Flags, Present, Allowed;
    OutsideTrans(vm, s1, s2, p, v, v + 1, v + 1);
    assert SameAt(s1, s2, p, v);
  }

  // ---------- growing and shrinking ----------

  const UINT64: nat := 0x1_0000_0000_0000_0000

  /** `sz + n` in 64-bit arithmetic, for a 32-bit `n`. */
  function Plus(sz: nat, n: int): (r: nat)
    requires sz <= MAXSZ && -0x8000_0000 <= n < 0x8000_0000
    ensures if sz + n < 0 then r > sz else r == sz + n
  {
    (sz + n + UINT64) % UINT64
  }

  lemma UpMono(a: nat, b: nat)
    requires a <= b
    ensures Up(a) <= Up(b) && (b <= MAXSZ ==> Up(b) <= TRAPFRAME)
  {
  }

  lemma ConfinedResize(vm: Vm, vm1: Vm, vm2: Vm, p: nat, sz: nat)
    requires Confined(vm, p) && sz <= MAXSZ && SameView(vm1, vm2)
    requires p in vm2.procs && vm2.procs[p] == vm.procs[p].(sz := sz)
    requires if sz >= vm.procs[p].sz then Outside(vm, vm1, p, Up(vm.procs[p].sz), Up(sz)) else Deleted(vm, vm1, p, Up(sz), Up(vm.procs[p].sz))
    ensures Confined(vm2, p)
  {
    UpMono(sz, MAXSZ);
    if sz >= vm.procs[p].sz { UpMono(vm.procs[p].sz, sz); }
    hide LeafPte, PageAt, Present, Up;
    forall v: nat | v < NVPN && Present(LeafPte(vm2, p, v)) ensures Allowed(vm2.procs[p], v) {
      assert SameAt(vm1, vm2, p, v);
      if SameAt(vm, vm1, p, v) {
        assert Allowed(vm.procs[p], v);
      }
    }
  }

  /** The size after `sbrk(n)`, when it succeeds. */
  function Resized(sz: nat, n: int): nat {
    if sz + n < 0 then sz else sz + n
  }

  lemma GrowFailed(vm: Vm, vm2: Vm, p: nat, n: int)
    requires Tidy(vm) && p in vm.procs && vm2.procs == vm.procs && n > 0
    requires Deleted(vm, vm2, p, Up(vm.procs[p].sz), Up(vm.procs[p].sz + n))
    ensures Tidy(vm2)
  {
    var sz := vm.procs[p].sz;
    assert Confined(vm, p);
    DeletedShrunk(vm, vm2, p, Up(sz), Up(sz + n));
    assert Confined(vm2, p) by { hide LeafPte, Present; }
    TidyStep(vm, vm2, p, Up(sz), Up(sz + n));
  }

  lemma GrowDone(vm: Vm, s1: Vm, s2: Vm, p: nat, n: int)
    requires Tidy(vm) && p in vm.procs && p in s2.procs
        && s2.procs == vm.procs[p := vm.procs[p].(sz := s2.procs[p].sz)] && SameView(s1, s2)
    requires s2.procs[p].sz == Resized(vm.procs[p].sz, n) && s2.procs[p].sz <= MAXSZ && vm.procs[p].sz <= MAXSZ
    requires n > 0 ==> Zeroed(vm, s1, p, Up(vm.procs[p].sz), Up(s2.procs[p].sz), PTE_V + PTE_R + PTE_U + PTE_W)
    requires n <= 0 ==> Deleted(vm, s1, p, Up(s2.procs[p].sz), Up(vm.procs[p].sz))
    ensures Tidy(s2)
    ensures n > 0 ==> Zeroed(vm, s2, p, Up(vm.procs[p].sz), Up(s2.procs[p].sz), PTE_V + PTE_R + PTE_U + PTE_W)
    ensures n <= 0 ==> Deleted(vm, s2, p, Up(s2.procs[p].sz), Up(vm.procs[p].sz))
  {
    var a, b := vm.procs[p].sz, s2.procs[p].sz;
    assert Confined(vm, p);
    UpMono(if n > 0 then a else b, if n > 0 then b else a);
    hide Up, Flags, LeafPte, PageAt, Present, Allowed, Tidy, SameAt;
    ConfinedResize(vm, s1, s2, p, b);
    if n > 0 {
      ZeroedSame(vm, s1, s2, p, Up(a), Up(b), PTE_V + PTE_R + PTE_U + PTE_W);
      TidyStep(vm, s2, p, Up(a), Up(b));
    } else {
      DeletedSame(vm, s1, s2, p, Up(b), Up(a));
      TidyStep(vm, s2, p, Up(b), Up(a));
    }
  }

  lemma ZeroedSame(vm: Vm, vm1: Vm, vm2: Vm, p: nat, lo: nat, hi: nat, flags: nat)
    requires Zeroed(vm, vm1, p, lo, hi, flags) && SameView(vm1, vm2) && lo <= hi <= TRAPFRAME
    ensures Zeroed(vm, vm2, p, lo, hi, flags)
  {
    OutsideTrans(vm, vm1, vm2, p, lo, hi, hi);
    hide LeafPte, PageAt, Flags;
    forall v: nat | lo <= v < hi ensures PageAt(vm2, p, v) == PageAt(vm1, p, v) && LeafPte(vm2, p, v) == LeafPte(vm1, p, v) {
      assert SameAt(vm1, vm2, p, v);
    }
  }

  lemma ConfinedRegion(vm: Vm, vm2: Vm, p: nat)
    requires Confined(vm, p) && vm.procs[p].rpages == 0 && SameView(vm, vm2) && p in vm2.procs
    requires vm2.procs[p] == vm.procs[p].(rstart := REGION, rpages := vm2.procs[p].rpages)
        && REGION + vm2.procs[p].rpages <= TRAPFRAME
    ensures Confined(vm2, p)
  {
    hide LeafPte, PageAt, Present, Up;
    forall v: nat | v < NVPN ensures LeafPte(vm2, p, v) == LeafPte(vm, p, v) {
      assert SameAt(vm, vm2, p, v);
    }
  }

  // ---------- copying ----------

  /** Page `v` of `c` in `vm2` is a copy of page `v` of `p` in `vm`. */
  predicate CopyOf(vm: Vm, vm2: Vm, p: nat, c: nat, v: nat) {
    && (Present(LeafPte(vm2, c, v)) <==> Present(LeafPte(vm, p, v)))
    && (Present(LeafPte(vm, p, v)) ==> Flags(LeafPte(vm2, c, v)) == Flags(LeafPte(vm, p, v)))
    && PageAt(vm2, c, v) == PageAt(vm, p, v)
  }

  ghost predicate Copied(vm: Vm, vm2: Vm, p: nat, c: nat, n: nat) {
    Outside(vm, vm2, c, 0, n) && forall v: nat :: v < n ==> CopyOf(vm, vm2, p, c, v)
  }

  lemma CopiedStep(vm: Vm, vm1: Vm, vm2: Vm, p: nat, c: nat, n: nat)
    requires Copied(vm, vm1, p, c, n) && n < TRAPFRAME && p != c && Outside(vm1, vm2, c, n, n + 1)
        && CopyOf(vm1, vm2, p, c, n)
    ensures Copied(vm, vm2, p, c, n + 1)
  {
    hide LeafPte, PageAt, Present, Flags;
    OutsideTrans(vm, vm1, vm2, c, 0, n, n + 1);
    CopyMoved(vm, vm1, vm2, p, c, n);
    hide SameAt, CopyOf;
    forall v: nat | v < n ensures CopyOf(vm, vm2, p, c, v) {
      assert SameAt(vm1, vm2, c, v);
      CopyKept(vm, vm1, vm2, p, c, v);
    }
  }

  lemma CopyMoved(vm: Vm, vm1: Vm, vm2: Vm, p: nat, c: nat, v: nat)
    requires CopyOf(vm1, vm2, p, c, v) && SameAt(vm, vm1, p, v) && !Special(v)
    ensures CopyOf(vm, vm2, p, c, v)
  {
    hide LeafPte, PageAt, Present, Flags;
  }

  lemma CopyKept(vm: Vm, vm1: Vm, vm2: Vm, p: nat, c: nat, v: nat)
    requires CopyOf(vm, vm1, p, c, v) && SameAt(vm1, vm2, c, v) && !Special(v)
    ensures CopyOf(vm, vm2, p, c, v)
  {
    hide LeafPte, PageAt, Present, Flags;
  }

  lemma CopiedUndo(vm: Vm, vm1: Vm, vm2: Vm, vm3: Vm, c: nat, n: nat, hi: nat)
    requires Outside(vm, vm1, c, 0, n) && SameView(vm1, vm2) && Deleted(vm2, vm3, c, 0, n) && n <= hi <= NVPN
    requires forall v: nat :: v < hi ==> !Present(LeafPte(vm, c, v))
    ensures Deleted(vm, vm3, c, 0, hi)
  {
    hide LeafPte, PageAt, Present;
    forall q: nat, v: nat | v < NVPN && !(q == c && 0 <= v < n) ensures SameAt(vm, vm3, q, v) {
      assert SameAt(vm, vm1, q, v) && SameAt(vm1, vm2, q, v) && SameAt(vm2, vm3, q, v);
    }
    forall v: nat | n <= v < hi ensures LeafPte(vm3, c, v) == LeafPte(vm, c, v) {
      assert SameAt(vm, vm3, c, v);
    }
  }

  /** What a mapped user page looks like. */
  lemma LeafShape(ram: set<nat>, vm: Vm, owner: map<nat, Use>, loose: set<nat>, p: nat, v: nat)
    requires Owned(ram, vm, owner, loose) && v < NVPN && !Special(v)
    ensures var e := LeafPte(vm, p, v); if Present(e) then
        && Flags(e) < 1024 && Present(Flags(e)) && Rwx(Flags(e)) && Frame(e) in vm.mem && vm.mem[Frame(e)].Bytes?
        && |PageAt(vm, p, v)| == PGSIZE && PageAt(vm, p, v) == vm.mem[Frame(e)].b
      else PageAt(vm, p, v) == []
  {
    Indices(v);
    LowTable(ram, vm, owner, loose, p, v);
    assert ValidUse(Leaf(p, v)) && 0 !in vm.mem;
    var e := LeafPte(vm, p, v);
    FlagsOf(e);
    if Present(e) {
      var low := LowOf(vm, p, I2(v), I1(v));
      PresentFrame(ram, vm, owner, loose, 0, I0(v));
      PresentFrame(ram, vm, owner, loose, low, I0(v));
      assert Formed(vm.mem[low], Low(p, I2(v), I1(v)));
      assert Names(vm, Leaf(p, v)) == Frame(e);
      hide Names, LeafPte, Present, Rwx, Frame, Flags;
    }
  }

  lemma FlagsOf(e: nat)
    ensures Flags(e) < 1024 && (Present(Flags(e)) <==> Present(e)) && (Rwx(Flags(e)) <==> Rwx(e)) && !Present(0)
  {
    PteFields(e / 1024, e % 1024);
    assert MakePte(e / 1024, e % 1024) == e;
  }

  lemma CopyMade(vm1: Vm, vm2: Vm, p: nat, c: nat, v: nat, flags: nat)
    requires Present(LeafPte(vm1, p, v)) && flags == Flags(LeafPte(vm1, p, v)) && flags < 1024 && Present(flags)
    requires Present(LeafPte(vm2, c, v)) && Flags(LeafPte(vm2, c, v)) == Valid(flags)
        && PageAt(vm2, c, v) == PageAt(vm1, p, v)
    ensures CopyOf(vm1, vm2, p, c, v)
  {
    hide LeafPte, PageAt, Flags;
  }

  lemma CopySkipped(ram: set<nat>, vm: Vm, owner: map<nat, Use>, loose: set<nat>, p: nat, c: nat, v: nat)
    requires Owned(ram, vm, owner, loose) && v < TRAPFRAME && !Present(LeafPte(vm, p, v)) && !Present(LeafPte(vm, c, v))
    ensures CopyOf(vm, vm, p, c, v)
  {
    LeafShape(ram, vm, owner, loose, p, v);
    LeafShape(ram, vm, owner, loose, c, v);
    hide Owned, LeafPte, PageAt, Present;
  }

  /** The child has copies of the parent's first `n` pages and no other user page. */
  ghost predicate Twin(vm: Vm, vm2: Vm, p: nat, c: nat, n: nat) {
    && (forall v: nat :: v < n ==> CopyOf(vm, vm2, p, c, v))
    && (forall v: nat :: n <= v < NVPN && !Special(v) ==> !Present(LeafPte(vm2, c, v)))
  }

  lemma TidyAt(vm: Vm, p: nat)
    requires Tidy(vm) && p in vm.procs
    ensures Confined(vm, p)
  {
  }

  lemma BlankEmpty(vm: Vm, c: nat, t: nat)
    requires Blank(vm, c, t)
    ensures forall v: nat :: v < TRAPFRAME ==> !Present(LeafPte(vm, c, v))
  {
    hide LeafPte, Present;
  }

  lemma BlankStill(s1: Vm, s2: Vm, c: nat, t: nat, n: nat)
    requires Blank(s1, c, t) && Deleted(s1, s2, c, 0, n) && s2.procs == s1.procs
    requires s1.procs[c].sz == 0 && s1.procs[c].rpages == 0 && s1.procs[c].rstart == 0
    ensures Confined(s2, c) && Leaked(s2, c) == {}
  {
    DeletedShrunk(s1, s2, c, 0, n);
    hide Deleted, Outside;
    assert !Present(LeafPte(s2, c, SHMEM)) && !Present(LeafPte(s2, c, ROPAGE));
    hide LeafPte, Present, MakePte;
  }

  lemma ForkDone(vm: Vm, s1: Vm, s2: Vm, s3: Vm, p: nat, c: nat, t: nat)
    requires Tidy(vm) && p in vm.procs && c !in vm.procs && Outside(vm, s1, c, 0, NVPN) && Blank(s1, c, t)
    requires Copied(s1, s2, p, c, Up(vm.procs[p].sz)) && SameView(s2, s3)
    requires c in s3.procs && s3.procs == vm.procs[c := s3.procs[c]]
    requires s3.procs[c] == vm.procs[p].(root := s3.procs[c].root, trapframe := s3.procs[c].trapframe)
        && s3.procs[c].root != 0
    ensures Tidy(s3) && Outside(vm, s3, c, 0, NVPN) && Twin(vm, s3, p, c, Up(vm.procs[p].sz))
  {
    var n := Up(vm.procs[p].sz);
    TidyAt(vm, p);
    hide LeafPte, PageAt, Present, Tidy, MakePte, Up, SameAt, CopyOf;
    OutsideWiden(vm, s1, s2, c, 0, n);
    OutsideWiden(vm, s2, s3, c, 0, 0);
    forall v: nat | v < n ensures CopyOf(vm, s3, p, c, v) {
      assert SameAt(vm, s1, p, v) && SameAt(s2, s3, c, v);
      CopyMoved(vm, s1, s2, p, c, v);
      CopyKept(vm, s2, s3, p, c, v);
    }
    forall v: nat | n <= v < NVPN && !Special(v) ensures !Present(LeafPte(s3, c, v)) {
      assert SameAt(s1, s2, c, v);
      LeafSame(s1, s2, s3, c, v);
    }
    assert Confined(s3, c);
    TidyStep(vm, s3, c, 0, NVPN);
  }

  lemma LeafSame(s1: Vm, s2: Vm, s3: Vm, c: nat, v: nat)
    requires SameAt(s1, s2, c, v) && SameView(s2, s3) && v < NVPN
    ensures LeafPte(s3, c, v) == LeafPte(s1, c, v)
  {
    hide LeafPte, PageAt;
    assert SameAt(s2, s3, c, v);
  }

  /** Frames `lo .. hi`. */
  ghost function Frames(lo: nat, hi: nat): (s: set<nat>)
    ensures forall f: nat :: f in s <==> lo <= f < hi
    decreases hi - lo
  {
    if lo >= hi then {} else {lo} + Frames(lo + 1, hi)
  }

  lemma StartOwned(ram: set<nat>)
    requires 0 !in ram
    ensures Owned(ram, Vm(map[], [], map[]), map[], ram)
  {
    var vm := Vm(map[], [], map[]);
    forall u | ValidUse(u) ensures Names(vm, u) == 0 {
    }
    hide Names;
  }

  lemma LeakedFresh(ram: set<nat>, vm: Vm, owner: map<nat, Use>, loose: set<nat>, p: nat)
    requires Owned(ram, vm, owner, loose)
    ensures Leaked(vm, p) !! loose
  {
    LeakedOwned(ram, vm, owner, loose, p);
    hide Leaked, Names, Formed;
  }

  type int32 = x: int | -0x8000_0000 <= x < 0x8000_0000

  datatype Op =
    | Sbrk(p: nat, n: int32)
    | Fault(p: nat, va: nat)
    | MapZero(p: nat, size: int32)
    | Fork(p: nat)
    | Exit(p: nat)

  // ---------- runs of operations ----------

  ghost predicate DidSbrk(vm: Vm, vm2: Vm, p: nat, n: int)
    requires p in vm.procs
  {
    var sz := vm.procs[p].sz;
    var sz2 := if sz + n > MAXSZ then sz else Resized(sz, n);
    && vm2.procs == vm.procs[p := vm.procs[p].(sz := sz2)]
    && (n >= 0 ==> vm2.mem == vm.mem && vm2.free == vm.free)
    && (n < 0 ==> Deleted(vm, vm2, p, Up(sz2), Up(sz)))
  }

  /** Served once and counted; or nothing changed, for one of three reasons. */
  ghost predicate DidFault(vm: Vm, vm2: Vm, p: nat, va: nat)
    requires p in vm.procs
  {
    var v := va / PGSIZE;
    if vm2.procs == vm.procs then
      && SameView(vm, vm2)
      && (!(InRegion(vm.procs[p], v) || va < vm.procs[p].sz) || Present(LeafPte(vm, p, v)) || |vm.free| < 3)
    else
      && FaultServed(vm, vm2, p, v)
      && vm2.procs == vm.procs[p := vm.procs[p].(faults := vm.procs[p].faults + 1)]
  }

  ghost predicate DidMapZero(vm: Vm, vm2: Vm, p: nat, size: int)
    requires p in vm.procs
  {
    && SameView(vm, vm2)
    && vm2.procs == if 0 < size <= 0x7fff_f000 && vm.procs[p].rpages == 0 then vm.procs[p := vm.procs[p].(rstart := REGION, rpages := Up(size))] else vm.procs
  }

  ghost predicate Forked(vm: Vm, vm2: Vm, p: nat, c: nat)
    requires p in vm.procs
  {
    && c !in vm.procs && c in vm2.procs && Outside(vm, vm2, c, 0, NVPN) && Twin(vm, vm2, p, c, Up(vm.procs[p].sz))
    && vm2.procs == vm.procs[c := vm.procs[p].(root := vm2.procs[c].root, trapframe := vm2.procs[c].trapframe)]
  }

  /** A copy; or nothing changed, for want of frames or of a slot. */
  ghost predicate DidFork(vm: Vm, vm2: Vm, p: nat)
    requires p in vm.procs
  {
    || (exists c: nat :: Forked(vm, vm2, p, c))
    || (vm2.procs == vm.procs && SameView(vm, vm2)
        && (|vm.free| < 6 + 3 * Up(vm.procs[p].sz) || forall q: nat :: q < NPROC ==> q in vm.procs))
  }

  ghost predicate DidExit(vm: Vm, vm2: Vm, p: nat) {
    vm2.procs == vm.procs - {p} && Outside(vm, vm2, p, 0, NVPN) && forall f :: f in vm.free ==> f in vm2.free
  }

  /** What an operation does to the processes and to what they can see; nothing when the
      process it names does not exist. */
  ghost predicate Did(vm: Vm, vm2: Vm, op: Op) {
    if op.p !in vm.procs then vm2 == vm
    else if op.Sbrk? then DidSbrk(vm, vm2, op.p, op.n)
    else if op.Fault? then DidFault(vm, vm2, op.p, op.va)
    else if op.MapZero? then DidMapZero(vm, vm2, op.p, op.size)
    else if op.Fork? then DidFork(vm, vm2, op.p)
    else DidExit(vm, vm2, op.p)
  }

  /** The frames the exits among the first `n` operations do not give back. */
  ghost function Lost(trace: seq<Vm>, ops: seq<Op>, n: nat): set<nat>
    requires n <= |ops| && n <= |trace|
  {
    if n == 0 then {}
    else Lost(trace, ops, n - 1) + if ops[n - 1].Exit? && ops[n - 1].p in trace[n - 1].procs then Leaked(trace[n - 1], ops[n - 1].p) else {}
  }

  /** No exit of the run leaves a frame behind. */
  ghost predicate CleanExits(trace: seq<Vm>, ops: seq<Op>)
    requires |ops| <= |trace|
  {
    forall i :: 0 <= i < |ops| && ops[i].Exit? && ops[i].p in trace[i].procs ==> Leaked(trace[i], ops[i].p) == {}
  }

  lemma {:induction false} LostPrefix(trace: seq<Vm>, more: seq<Vm>, ops: seq<Op>, n: nat)
    requires n <= |ops| && n <= |trace|
    ensures Lost(trace + more, ops, n) == Lost(trace, ops, n)
  {
    hide Leaked;
    if n > 0 {
      LostPrefix(trace, more, ops, n - 1);
      assert (trace + more)[n - 1] == trace[n - 1];
    }
  }

  lemma {:induction false} LostNothing(trace: seq<Vm>, ops: seq<Op>, n: nat)
    requires n <= |ops| && |ops| <= |trace|
    ensures Lost(trace, ops, n) == {} <==>
            forall i :: 0 <= i < n && ops[i].Exit? && ops[i].p in trace[i].procs ==> Leaked(trace[i], ops[i].p) == {}
  {
    hide Leaked;
    if n > 0 {
      LostNothing(trace, ops, n - 1);
    }
  }

  /** Exactly the exits with a page at one of the two addresses lose a frame. */
  lemma LeakedExact(ram: set<nat>, vm: Vm, owner: map<nat, Use>, loose: set<nat>, p: nat)
    requires Owned(ram, vm, owner, loose)
    ensures Leaked(vm, p) == {} <==> !Present(LeafPte(vm, p, SHMEM)) && !Present(LeafPte(vm, p, ROPAGE))
  {
    LeafShape(ram, vm, owner, loose, p, SHMEM);
    LeafShape(ram, vm, owner, loose, p, ROPAGE);
    HeldOne(vm, p, SHMEM);
    HeldOne(vm, p, ROPAGE);
    assert 0 !in vm.mem;
    hide Owned, LeafPte, Present, Held, Frame;
  }

  lemma HeldOne(vm: Vm, p: nat, v: nat)
    requires !Special(v)
    ensures Held(vm, p, v, v + 1) == {} <==> Names(vm, Leaf(p, v)) == 0
  {
    hide Names;
    if Names(vm, Leaf(p, v)) != 0 {
      assert Names(vm, Leaf(p, v)) in Held(vm, p, v, v + 1);
    }
  }

  /** A size of at most 0x50000000 keeps both addresses unmapped. */
  lemma SmallLeaksNothing(vm: Vm, p: nat)
    requires Confined(vm, p) && vm.procs[p].sz <= ROPAGE * PGSIZE
    ensures Leaked(vm, p) == {}
  {
    UpMono(vm.procs[p].sz, ROPAGE * PGSIZE);
    assert !Allowed(vm.procs[p], SHMEM) && !Allowed(vm.procs[p], ROPAGE);
    HeldOne(vm, p, SHMEM);
    HeldOne(vm, p, ROPAGE);
  }

  /** Every frame of RAM is in exactly one place. */
  ghost predicate Accounted(ram: set<nat>, vm: Vm) {
    exists owner, loose :: Owned(ram, vm, owner, loose)
  }

  lemma FaultRefused(vm: Vm, vm2: Vm, p: nat, va: nat)
    requires Confined(vm, p) && SameView(vm, vm2) && vm2.procs == vm.procs
    requires !(InRegion(vm.procs[p], va / PGSIZE) || va < vm.procs[p].sz) || Present(LeafPte(vm2, p, va / PGSIZE)) || |vm.free| < 3
    ensures DidFault(vm, vm2, p, va)
  {
    hide LeafPte, PageAt, Present, SameAt, SameView;
    if InRegion(vm.procs[p], va / PGSIZE) || va < vm.procs[p].sz {
      SameViewAt(vm, vm2, p, va / PGSIZE);
    }
  }

  lemma DidNothing(vm: Vm, op: Op)
    requires op.p !in vm.procs
    ensures Did(vm, vm, op)
  {
  }

  lemma SmallExits(trace: seq<Vm>, ops: seq<Op>)
    requires |trace| > |ops| && forall i :: 0 <= i <= |ops| ==> Tidy(trace[i])
    requires forall i :: 0 <= i < |ops| && ops[i].Exit? && ops[i].p in trace[i].procs ==> trace[i].procs[ops[i].p].sz <= ROPAGE * PGSIZE
    ensures CleanExits(trace, ops)
  {
    hide Leaked, Confined;
    forall i | 0 <= i < |ops| && ops[i].Exit? && ops[i].p in trace[i].procs ensures Leaked(trace[i], ops[i].p) == {} {
      assert Tidy(trace[i]);
      SmallLeaksNothing(trace[i], ops[i].p);
    }
  }

  // ---------- a user's loads and stores ----------

  /** New bytes in a mapped page: no other page of any process changes. */
  lemma StoreView(ram: set<nat>, vm: Vm, owner: map<nat, Use>, loose: set<nat>, p: nat, v: nat, b: seq<byte>)
    requires Owned(ram, vm, owner, loose) && v < TRAPFRAME && Names(vm, Leaf(p, v)) != 0
    ensures var vm2 := vm.(mem := vm.mem[Names(vm, Leaf(p, v)) := Bytes(b)]);
            Outside(vm, vm2, p, v, v + 1) && LeafPte(vm2, p, v) == LeafPte(vm, p, v) && PageAt(vm2, p, v) == b
  {
    var g := Names(vm, Leaf(p, v));
    var vm2 := vm.(mem := vm.mem[g := Bytes(b)]);
    assert ValidUse(Leaf(p, v)) && g in owner && owner[g] == Leaf(p, v);
    assert vm2.mem - {g} == vm.mem - {g};
    forall q: nat, w: nat | w < NVPN && !(q == p && w == v) ensures SameAt(vm, vm2, q, w) {
      StoreOther(ram, vm, owner, loose, g, p, v, b, q, w);
    }
    LooseLeaf(ram, vm, owner, loose, vm2, g, p, v);
    hide Owned, LeafPte, SameAt;
  }

  lemma StoreOther(ram: set<nat>, vm: Vm, owner: map<nat, Use>, loose: set<nat>, g: nat, p: nat, v: nat, b: seq<byte>, q: nat, w: nat)
    requires Owned(ram, vm, owner, loose) && g in owner && owner[g] == Leaf(p, v) && w < NVPN && !(q == p && w == v)
    ensures SameAt(vm, vm.(mem := vm.mem[g := Bytes(b)]), q, w)
  {
    var vm2 := vm.(mem := vm.mem[g := Bytes(b)]);
    assert vm2.mem - {g} == vm.mem - {g};
    LooseLeaf(ram, vm, owner, loose, vm2, g, q, w);
    assert !Special(w) ==> ValidUse(Leaf(q, w));
    hide LeafPte;
  }

  lemma StoreOwned(ram: set<nat>, vm: Vm, owner: map<nat, Use>, loose: set<nat>, p: nat, v: nat, b: seq<byte>)
    requires Owned(ram, vm, owner, loose) && v < TRAPFRAME && Names(vm, Leaf(p, v)) != 0 && |b| == PGSIZE
    ensures Owned(ram, vm.(mem := vm.mem[Names(vm, Leaf(p, v)) := Bytes(b)]), owner, loose)
  {
    var g := Names(vm, Leaf(p, v));
    var vm2 := vm.(mem := vm.mem[g := Bytes(b)]);
    assert ValidUse(Leaf(p, v)) && g in owner && owner[g] == Leaf(p, v);
    assert vm2.mem - {g} == vm.mem - {g};
    forall u | ValidUse(u) ensures Names(vm2, u) == Names(vm, u) {
      LooseFrame(ram, vm, owner, loose, vm2, g, u);
    }
    hide Names;
  }

  predicate Permits(flags: nat, write: bool) {
    flags / PTE_U % 2 == 1 && flags / (if write then PTE_W else PTE_R) % 2 == 1
  }

  lemma RootThere(vm: Vm, p: nat)
    ensures Confined(vm, p) ==> p in vm.procs && vm.procs[p].root != 0 && vm.procs[p].sz <= MAXSZ
  {
  }

  // ---------- the kernel's operations ----------

  class Kernel {
    var mem: map<nat, Page>
    var free: seq<nat>
    var procs: map<nat, Proc>
    const trampoline: nat   // frame of the trampoline code, in the kernel's text
    ghost const ram: set<nat>
    ghost var owner: map<nat, Use>
    ghost var loose: set<nat>
    ghost var refusals: nat         // how often kalloc found the free list empty

    ghost function State(): Vm
      reads this
    {
      Vm(mem, free, procs)
    }

    ghost predicate Inv()
      reads this
    {
      trampoline != 0 && Owned(ram, State(), owner, loose)
    }

    /** `kinit`: frames `lo .. hi` are freed one by one. */
    constructor (lo: nat, hi: nat, trampoline: nat)
      requires 0 < lo <= hi && trampoline != 0
      ensures Inv() && Tidy(State()) && loose == {} && procs == map[]
      ensures ram == Frames(lo, hi) && (forall f :: f in free <==> f in ram) && |free| == hi - lo
    {
      this.trampoline := trampoline;
      ram, loose := Frames(lo, hi), Frames(lo, hi);
      owner, mem, free, procs, refusals := map[], map[], [], map[], 0;
      new;
      StartOwned(ram);
      hide Owned, SameAt;
      var f := lo;
      while f < hi
        invariant lo <= f <= hi && Inv() && procs == map[]
        invariant loose == Frames(f, hi) && (forall g :: g in free <==> lo <= g < f) && |free| == f - lo
      {
        Kfree(f);
        f := f + 1;
      }
    }

    method Kalloc() returns (f: nat)
      requires Inv()
      modifies this`free, this`loose, this`refusals
      ensures Inv() && SameView(old(State()), State()) && SameNames(old(State()), State())
      ensures f == 0 <==> old(free) == []
      ensures f == 0 ==> free == [] && loose == old(loose)
      ensures f != 0 ==> f == old(free)[0] && free == old(free)[1..] && loose == old(loose) + {f} && f !in old(loose) && f !in owner
      ensures refusals == old(refusals) + if f == 0 then 1 else 0
    {
      hide Owned, SameAt;
      SameTreesView(State(), State());
      if free == [] {
        refusals := refusals + 1;
        return 0;
      }
      PopOwned(ram, State(), owner, loose);
      SameTreesView(State(), State().(free := free[1..]));
      SameTreesNames(State(), State().(free := free[1..]));
      f := free[0];
      free := free[1..];
      loose := loose + {f};
    }

    method Kfree(f: nat)
      requires Inv() && f in loose
      modifies this`free, this`mem, this`loose
      ensures Inv() && SameView(old(State()), State()) && SameNames(old(State()), State())
      ensures free == [f] + old(free) && mem == old(mem) - {f} && loose == old(loose) - {f}
    {
      PushOwned(ram, State(), owner, loose, f);
      assert f != 0 && f !in owner;
      hide Owned, SameAt;
      KeepPages(ram, State(), owner, loose, Vm(mem - {f}, [f] + free, procs), f);
      mem := mem - {f};
      free := [f] + free;
      loose := loose - {f};
    }

    /** memset or memmove of a whole frame that is not in use yet. */
    method Fill(f: nat, page: Page)
      requires Inv() && f in loose
      modifies this`mem
      ensures Inv() && SameView(old(State()), State()) && SameNames(old(State()), State())
      ensures mem == old(mem)[f := page]
    {
      FillOwned(ram, State(), owner, loose, f, page);
      assert f != 0 && f !in owner;
      hide Owned, SameAt;
      assert mem[f := page] - {f} == mem - {f};
      KeepPages(ram, State(), owner, loose, Vm(mem[f := page], free, procs), f);
      mem := mem[f := page];
    }

    /** `kalloc` and the filling of the frame; 0 when there is none. */
    method NewFrame(page: Page) returns (f: nat)
      requires Inv()
      modifies this`mem, this`free, this`loose, this`refusals
      ensures Inv() && SameView(old(State()), State()) && SameNames(old(State()), State())
      ensures f == 0 <==> old(free) == []
      ensures f == 0 ==> State() == old(State()) && loose == old(loose)
      ensures f != 0 ==> free == old(free)[1..] && mem == old(mem)[f := page] && loose == old(loose) + {f} && f !in old(loose) && f !in owner
      ensures refusals == old(refusals) + if f == 0 then 1 else 0
    {
      hide Owned, SameAt, Outside, Names;
      f := Kalloc();
      if f != 0 {
        ghost var s1 := State();
        Fill(f, page);
        OutsideTrans(old(State()), s1, State(), 0, 0, 0, 0);
      }
    }

    /** An empty table hooked in below table `t`. */
    method Attach(t: nat, i: nat, f: nat, ghost u: Use)
      requires Inv() && CanAttach(State(), loose, u, f) && t == ParentOf(State(), u) && i == IndexOf(u)
      modifies this`mem, this`owner, this`loose
      ensures Inv() && loose == old(loose) - {f} && owner == old(owner)[f := u]
      ensures Keeps(old(mem), mem, old(loose))
      ensures SameView(old(State()), State()) && Names(State(), u) == f
      ensures u.Low? ==> MidOf(State(), u.p, u.i2) == old(MidOf(State(), u.p, u.i2))
    {
      ParentTable(ram, State(), owner, loose, u);
      ghost var vm, vm2 := State(), Attached(State(), u, f);
      AttachedOwned(ram, State(), owner, loose, u, f);
      AttachedNames(ram, State(), owner, loose, u, f, u);
      AttachedNames(ram, State(), owner, loose, u, f, Mid(u.p, u.i2));
      assert t != 0 && t !in loose && vm2.mem - {t} == vm.mem - {t};
      KeepsOther(mem, t, vm2.mem[t], loose);
      hide Owned, SameAt, Names, LowOf, Keeps;
      KeepPages(ram, vm, owner, loose, vm2, t);
      mem := mem[t := Table(mem[t].ptes[i := MakePte(f, PTE_V)])];
      owner := owner[f := u];
      loose := loose - {f};
    }

    /** A new empty table below table `t`, memory permitting. */
    method Grow(t: nat, i: nat, ghost u: Use) returns (f: nat)
      requires Inv() && (u.Mid? || u.Low?) && ValidUse(u) && t == ParentOf(State(), u) != 0 && i == IndexOf(u)
      requires !Present(Pte(State(), t, i))
      modifies this`mem, this`free, this`owner, this`loose, this`refusals
      ensures Inv() && loose == old(loose) && SameView(old(State()), State())
      ensures Keeps(old(mem), mem, old(loose))
      ensures f != 0 ==> f == Names(State(), u)
      ensures u.Low? ==> MidOf(State(), u.p, u.i2) == old(MidOf(State(), u.p, u.i2))
      ensures f == 0 ==> State() == old(State()) && owner == old(owner) && free == []
      ensures refusals == old(refusals) + if f == 0 then 1 else 0
      ensures |free| >= |old(free)| - 1 && (f == 0 ==> |old(free)| < 1)
    {
      ParentTable(ram, State(), owner, loose, u);
      hide Owned, SameAt, Keeps, Outside, SameNames, Names, MidOf, RootOf;
      f := NewFrame(Table(Zeros()));
      if f == 0 {
        return 0;
      }
      ghost var s2 := State();
      KeepsOther(old(mem), f, Table(Zeros()), old(loose));
      SameParent(old(State()), s2, u);
      Attach(t, i, f, u);
      KeepsTrans(old(mem), s2.mem, mem, old(loose), old(loose) + {f});
      OutsideTrans(old(State()), s2, State(), 0, 0, 0, 0);
    }

    /** One level of `walk`: from table `t` through its entry `i`, with a table created there
        if there is none and `alloc`. */
    method Descend(t: nat, i: nat, alloc: bool, ghost u: Use) returns (f: nat)
      requires Inv() && (u.Mid? || u.Low?) && ValidUse(u) && t == ParentOf(State(), u) != 0 && i == IndexOf(u)
      modifies this`mem, this`free, this`owner, this`loose, this`refusals
      ensures Inv() && loose == old(loose) && SameView(old(State()), State())
      ensures Keeps(old(mem), mem, old(loose))
      ensures f == Names(State(), u)
      ensures u.Low? ==> MidOf(State(), u.p, u.i2) == old(MidOf(State(), u.p, u.i2))
      ensures f == 0 ==> State() == old(State()) && owner == old(owner) && (alloc ==> free == [])
      ensures !alloc || old(Names(State(), u)) != 0 ==> State() == old(State()) && owner == old(owner)
      ensures refusals == old(refusals) + if f == 0 && alloc then 1 else 0
      ensures |free| >= |old(free)| - 1 && (f == 0 && alloc ==> |old(free)| < 1)
    {
      ParentTable(ram, State(), owner, loose, u);
      PresentFrame(ram, State(), owner, loose, t, i);
      hide Owned, SameAt;
      SameTreesView(State(), State());
      if Present(mem[t].ptes[i]) {
        return Frame(mem[t].ptes[i]);
      }
      if !alloc {
        return 0;
      }
      f := Grow(t, i, u);
    }

    method Walk(p: nat, vpn: nat, alloc: bool) returns (low: nat)
      requires Inv() && p in procs && procs[p].root != 0 && vpn < MAXVPN
      modifies this`mem, this`free, this`owner, this`loose, this`refusals
      ensures Inv() && loose == old(loose) && SameView(old(State()), State())
      ensures Keeps(old(mem), mem, old(loose))
      ensures low == LowOf(State(), p, I2(vpn), I1(vpn))
      ensures low == 0 && alloc ==> free == []
      ensures !alloc || old(LowOf(State(), p, I2(vpn), I1(vpn))) != 0 ==> State() == old(State()) && owner == old(owner)
      ensures refusals == old(refusals) + if low == 0 && alloc then 1 else 0
      ensures |free| >= |old(free)| - 2 && (low == 0 && alloc ==> |old(free)| < 2)
    {
      hide Owned, SameAt;
      Indices(vpn);
      var mid := Descend(procs[p].root, I2(vpn), alloc, Mid(p, I2(vpn)));
      PresentFrame(ram, old(State()), old(owner), old(loose), 0, I1(vpn));
      if mid == 0 {
        return 0;
      }
      ghost var s1 := State();
      low := Descend(mid, I1(vpn), alloc, Low(p, I2(vpn), I1(vpn)));
      OutsideTrans(old(State()), s1, State(), 0, 0, 0, 0);
    }

    /** `*pte = PA2PTE(pa) | perm | PTE_V` in the last-level table that `walk` returned. */
    method MapLeaf(p: nat, vpn: nat, low: nat, f: nat, flags: nat)
      requires Inv() && vpn < NVPN && low == LowOf(State(), p, I2(vpn), I1(vpn)) != 0
          && !Present(LeafPte(State(), p, vpn))
      requires flags < 1024 && Present(flags) && Rwx(flags) && f != 0
      requires !Special(vpn) ==> f in loose && f in mem && mem[f].Bytes? && |mem[f].b| == PGSIZE
      modifies this`mem, this`owner, this`loose
      ensures Inv() && loose == old(loose) - (if Special(vpn) then {} else {f})
      ensures Keeps(old(mem), mem, old(loose))
      ensures Outside(old(State()), State(), p, vpn, vpn + 1) && LeafPte(State(), p, vpn) == MakePte(f, flags)
      ensures !Special(vpn) ==> PageAt(State(), p, vpn) == old(mem[f].b)
    {
      ghost var vm := State();
      Indices(vpn);
      LowTable(ram, vm, owner, loose, p, vpn);
      MapOwned(ram, vm, owner, loose, p, vpn, f, flags);
      SetLeaf(ram, vm, owner, loose, p, vpn, MakePte(f, flags), p, vpn);
      SetLeafView(ram, vm, owner, loose, p, vpn, MakePte(f, flags));
      PteFields(f, flags);
      assert low !in loose && (!Special(vpn) ==> f != low);
      KeepsOther(mem, low, Table(mem[low].ptes[I0(vpn) := MakePte(f, flags)]), loose);
      hide Keeps, Owned, SameAt, LeafPte, LowOf, MakePte, Present, Rwx;
      mem := mem[low := Table(mem[low].ptes[I0(vpn) := MakePte(f, flags)])];
      if !Special(vpn) {
        owner := owner[f := Leaf(p, vpn)];
        loose := loose - {f};
      }
    }

    /** `*pte = 0`: the frame that was mapped is now the caller's. */
    method UnmapLeaf(p: nat, vpn: nat, low: nat)
      requires Inv() && vpn < NVPN && low == LowOf(State(), p, I2(vpn), I1(vpn)) && Present(LeafPte(State(), p, vpn))
      modifies this`mem, this`owner, this`loose
      ensures Inv() && loose == old(loose) + (if Special(vpn) then {} else {old(Names(State(), Leaf(p, vpn)))})
      ensures Keeps(old(mem), mem, old(loose))
      ensures !Special(vpn) ==> old(Names(State(), Leaf(p, vpn))) !in old(loose)
      ensures Outside(old(State()), State(), p, vpn, vpn + 1) && LeafPte(State(), p, vpn) == 0
      ensures Releases(old(owner), owner, p)
    {
      ghost var vm, g := State(), Frame(LeafPte(State(), p, vpn));
      Indices(vpn);
      LowTable(ram, vm, owner, loose, p, vpn);
      UnmapOwned(ram, vm, owner, loose, p, vpn);
      SetLeaf(ram, vm, owner, loose, p, vpn, 0, p, vpn);
      SetLeafView(ram, vm, owner, loose, p, vpn, 0);
      assert low !in loose && (!Special(vpn) ==> g !in loose);
      KeepsOther(mem, low, Table(mem[low].ptes[I0(vpn) := 0]), loose);
      ReleasesOne(owner, p, g);
      hide Releases, Keeps, Owned, SameAt, LeafPte, LowOf, Present;
      mem := mem[low := Table(mem[low].ptes[I0(vpn) := 0])];
      if !Special(vpn) {
        owner := owner - {g};
        loose := loose + {g};
      }
    }

    method MapPages(p: nat, vpn: nat, n: nat, f: nat, perm: nat) returns (ok: bool, ghost k: nat)
      requires Inv() && p in procs && procs[p].root != 0 && 0 < n && vpn + n <= MAXVPN
      requires forall v :: vpn <= v < vpn + n ==> !Present(LeafPte(State(), p, v))
      requires perm < 1024 && Rwx(perm) && f != 0
      requires forall v :: vpn <= v < vpn + n && !Special(v) ==> IsPage(mem, loose, f + (v - vpn))
      modifies this`mem, this`free, this`owner, this`loose, this`refusals
      ensures Inv() && (ok <==> k == n) && k <= n && (!ok ==> free == [])
      ensures Mapped(old(State()), State(), p, vpn, k, f, Valid(perm))
      ensures loose == old(loose) - Given(vpn, k, f) && Keeps(old(mem), mem, loose)
      ensures refusals == old(refusals) + if ok then 0 else 1
      ensures |free| >= |old(free)| - 2 * n && (!ok ==> |old(free)| < 2 * n)
    {
      hide Owned, SameAt, LeafPte, PageAt, LowOf, Keeps, Present, Rwx;
      ghost var vm, fs := State(), loose;
      var i := 0;
      MappedNone(vm, p, vpn, f, Valid(perm));
      assert Keeps(vm.mem, mem, loose) by { KeepsSame(mem, loose); }
      while i < n
        invariant i <= n
        invariant Inv() && Mapped(vm, State(), p, vpn, i, f, Valid(perm)) && refusals == old(refusals)
        invariant loose == fs - Given(vpn, i, f) && Keeps(vm.mem, mem, loose) && |free| >= |old(free)| - 2 * i
      {
        ghost var vm1, gs := State(), loose;
        var low := Walk(p, vpn + i, true);
        ghost var vm2 := State();
        KeepsTrans(vm.mem, vm1.mem, mem, gs, gs);
        MappedWalk(vm, vm1, vm2, p, vpn, i, f, Valid(perm));
        if low == 0 {
          return false, i;
        }
        MapReady(vm, vm2, p, vpn, n, i, f, fs);
        MapLeaf(p, vpn + i, low, f + i, Valid(perm));
        MappedStep(vm, vm2, State(), p, vpn, i, f, Valid(perm));
        KeepsTrans(vm.mem, vm2.mem, mem, loose, gs);
        i := i + 1;
      }
      ok, k := true, n;
    }

    method UvmUnmap(p: nat, vpn: nat, n: nat, doFree: bool)
      requires Inv() && p in procs && procs[p].root != 0 && vpn + n <= (if doFree then TRAPFRAME else MAXVPN)
      modifies this`mem, this`free, this`owner, this`loose, this`refusals
      ensures Inv() && Deleted(old(State()), State(), p, vpn, vpn + n) && Keeps(old(mem), mem, old(loose))
      ensures loose == old(loose) + if doFree then {} else Held(old(State()), p, vpn, vpn + n)
      ensures Releases(old(owner), owner, p)
      ensures refusals == old(refusals)
    {
      hide Owned, SameAt, LeafPte, PageAt, LowOf, Keeps, Present, Names;
      ghost var vm, fs := State(), loose;
      SameTreesView(vm, vm);
      KeepsSame(mem, fs);
      var i := 0;
      assert Outside(vm, vm, p, vpn, vpn);
      while i < n
        invariant i <= n
        invariant Inv() && Deleted(vm, State(), p, vpn, vpn + i) && Keeps(vm.mem, mem, fs)
            && Releases(old(owner), owner, p)
        invariant refusals == old(refusals)
        invariant loose == fs + if doFree then {} else Held(vm, p, vpn, vpn + i)
      {
        ghost var vm1, gs := State(), loose;
        HeldStep(vm, vm1, p, vpn, vpn + i);
        UnmapOne(p, vpn + i, doFree);
        DeletedStep(vm, vm1, State(), p, vpn, vpn + i);
        KeepsTrans(vm.mem, vm1.mem, mem, fs, gs);
        i := i + 1;
      }
    }

    method UnmapOne(p: nat, vpn: nat, doFree: bool)
      requires Inv() && p in procs && procs[p].root != 0 && vpn < (if doFree then TRAPFRAME else MAXVPN)
      modifies this`mem, this`free, this`owner, this`loose, this`refusals
      ensures Inv() && Outside(old(State()), State(), p, vpn, vpn + 1) && !Present(LeafPte(State(), p, vpn))
      ensures Keeps(old(mem), mem, old(loose))
      ensures var g := old(Names(State(), Leaf(p, vpn))); loose == old(loose) + if doFree || Special(vpn) || g == 0 then {} else {g}
      ensures Releases(old(owner), owner, p)
      ensures refusals == old(refusals)
    {
      ghost var vm, fs := State(), loose;
      SameTreesView(vm, vm);
      KeepsSame(mem, fs);
      Indices(vpn);
      LowTable(ram, vm, owner, loose, p, vpn);
      PresentFrame(ram, vm, owner, loose, LowOf(vm, p, I2(vpn), I1(vpn)), I0(vpn));
      hide Owned, SameAt, LowOf, Keeps;
      var low := Walk(p, vpn, false);
      if low == 0 || !Present(mem[low].ptes[I0(vpn)]) {
        return;
      }
      DropLeaf(p, vpn, low, Frame(mem[low].ptes[I0(vpn)]), doFree);
    }

    method DropLeaf(p: nat, vpn: nat, low: nat, f: nat, doFree: bool)
      requires Inv() && vpn < (if doFree then TRAPFRAME else MAXVPN) && low == LowOf(State(), p, I2(vpn), I1(vpn))
      requires Present(LeafPte(State(), p, vpn)) && f == Names(State(), Leaf(p, vpn))
      modifies this`mem, this`free, this`owner, this`loose
      ensures Inv() && Outside(old(State()), State(), p, vpn, vpn + 1) && LeafPte(State(), p, vpn) == 0
      ensures Keeps(old(mem), mem, old(loose))
      ensures loose == old(loose) + if doFree || Special(vpn) then {} else {f}
      ensures Releases(old(owner), owner, p)
    {
      ghost var vm, fs := State(), loose;
      hide Owned, SameAt, LowOf, Names, LeafPte, Present, PageAt;
      UnmapLeaf(p, vpn, low);
      if doFree {
        ghost var vm1 := State();
        Kfree(f);
        OutsideTrans(vm, vm1, State(), p, vpn, vpn + 1, vpn + 1);
        SameViewAt(vm1, State(), p, vpn);
      }
    }

    /** kalloc, fill the page, map it; undone if there is no memory for a table. */
    method NewPage(p: nat, vpn: nat, b: seq<byte>, perm: nat) returns (ok: bool)
      requires Inv() && p in procs && procs[p].root != 0 && vpn < TRAPFRAME && !Present(LeafPte(State(), p, vpn))
      requires |b| == PGSIZE && perm < 1024 && Rwx(perm)
      modifies this`mem, this`free, this`owner, this`loose, this`refusals
      ensures Inv() && loose == old(loose) && (!ok ==> SameView(old(State()), State()))
      ensures Outside(old(State()), State(), p, vpn, vpn + 1)
      ensures ok ==> Present(LeafPte(State(), p, vpn)) && Flags(LeafPte(State(), p, vpn)) == Valid(perm) && PageAt(State(), p, vpn) == b
      ensures refusals == old(refusals) + if ok then 0 else 1
      ensures |free| >= |old(free)| - 3 && (!ok ==> |old(free)| < 3)
    {
      hide Owned, SameAt, LeafPte, PageAt, Rwx, Keeps;
      ghost var vm := State();
      var f := NewFrame(Bytes(b));
      if f == 0 {
        return false;
      }
      ghost var vm2 := State();
      SameViewAt(vm, vm2, p, vpn);
      ghost var k;
      ok, k := MapPages(p, vpn, 1, f, perm);
      ghost var vm3 := State();
      if ok {
        PteFields(f, Valid(perm));
        MappedOne(vm, vm2, vm3, p, vpn, f, Valid(perm));
        GivenOne(vpn, f);
        assert loose == old(loose);
      } else {
        Kfree(f);
        OutsideTrans(vm, vm2, vm3, 0, 0, 0, 0);
        OutsideTrans(vm, vm3, State(), 0, 0, 0, 0);
      }
    }

    method UvmDealloc(p: nat, oldsz: nat, newsz: nat) returns (sz: nat)
      requires Inv() && p in procs && procs[p].root != 0 && Up(oldsz) <= TRAPFRAME
      modifies this`mem, this`free, this`owner, this`loose, this`refusals
      ensures Inv() && loose == old(loose) && sz == (if newsz >= oldsz then oldsz else newsz)
      ensures newsz >= oldsz ==> State() == old(State())
      ensures newsz < oldsz ==> Deleted(old(State()), State(), p, Up(newsz), Up(oldsz))
      ensures refusals == old(refusals)
    {
      hide Owned, SameAt, LeafPte, PageAt, Keeps;
      if newsz >= oldsz {
        return oldsz;
      }
      SameTreesView(State(), State());
      if Up(newsz) < Up(oldsz) {
        UvmUnmap(p, Up(newsz), Up(oldsz) - Up(newsz), true);
      }
      return newsz;
    }

    method UvmAlloc(p: nat, oldsz: nat, newsz: nat, xperm: nat) returns (sz: nat)
      requires Inv() && p in procs && procs[p].root != 0 && Up(newsz) <= TRAPFRAME && xperm in {0, PTE_W, PTE_X}
      requires forall v: nat :: Up(oldsz) <= v < Up(newsz) ==> !Present(LeafPte(State(), p, v))
      modifies this`mem, this`free, this`owner, this`loose, this`refusals
      ensures Inv() && loose == old(loose) && sz in {oldsz, newsz, 0}
      ensures newsz < oldsz ==> sz == oldsz && State() == old(State())
      ensures newsz >= oldsz && sz == newsz != 0 ==> Zeroed(old(State()), State(), p, Up(oldsz), Up(newsz), Valid(UserPerm(xperm)))
      ensures newsz >= oldsz && sz != newsz ==> sz == 0 && Deleted(old(State()), State(), p, Up(oldsz), Up(newsz))
      ensures refusals == old(refusals) + if newsz >= oldsz && sz != newsz then 1 else 0
    {
      if newsz < oldsz {
        return oldsz;
      }
      hide Owned, SameAt, LeafPte, PageAt, Keeps, Present, Rwx, Flags, Valid, UserPerm, Up, Outside, Deleted, Zeroed;
      ghost var vm := State();
      var v, lo := Up(oldsz), Up(oldsz);
      ZeroedNone(vm, p, lo, Valid(UserPerm(xperm)));
      while v < Up(newsz)
        invariant lo <= v <= Up(newsz) && refusals == old(refusals)
        invariant Inv() && loose == old(loose) && Zeroed(vm, State(), p, lo, v, Valid(UserPerm(xperm)))
      {
        ghost var vm1 := State();
        ZeroedNext(vm, vm1, p, lo, v, Valid(UserPerm(xperm)));
        var ok := NewPage(p, v, Filled(0), UserPerm(xperm));
        if !ok {
          ghost var vm2 := State();
          UvmUnmap(p, lo, v - lo, true);
          ZeroedDeleted(vm, vm1, vm2, State(), p, lo, v, Up(newsz), Valid(UserPerm(xperm)));
          return 0;
        }
        ZeroedStep(vm, vm1, State(), p, lo, v, Valid(UserPerm(xperm)));
        v := v + 1;
      }
      return newsz;
    }

    /** Frees the table in frame `f` and every table below it. In the snapshot `vm`, before the
        table was taken from its process, the tables and their places are `uses`. */
    method FreeWalk(f: nat, ghost u: Use, ghost vm: Vm, ghost uses: map<nat, Use>)
      requires Inv() && Standing(vm, uses) && f in uses && uses[f] == u
      requires Subtree(uses, u) <= loose && Keeps(vm.mem, mem, Subtree(uses, u))
      modifies this`mem, this`free, this`loose
      ensures Inv() && loose == old(loose) - Subtree(uses, u) && SameView(old(State()), State())
          && Keeps(old(mem), mem, loose)
      decreases if u.Root? then 2 else if u.Mid? then 1 else 0
    {
      hide Owned, SameAt, Present, Rwx, Frame, Keeps, Subtree, Branches, Standing;
      ghost var s0, fs := State(), loose;
      SameTreesView(s0, s0);
      KeepsSame(mem, fs);
      BranchesAll(vm, uses, f, u);
      StandingTable(vm, uses, f);
      KeepsAt(vm.mem, mem, Subtree(uses, u), f);
      KeepsSame(mem, loose - {f});
      var i := 0;
      while i < NPTE
        invariant i <= NPTE
        invariant Inv() && SameView(s0, State()) && loose == fs - Branches(uses, u, i)
        invariant f in loose && f in mem && mem[f].Table? && |mem[f].ptes| == NPTE
        invariant forall j: nat :: i <= j < NPTE ==> mem[f].ptes[j] == Pte(vm, f, j)
        invariant Keeps(s0.mem, mem, loose - {f})
      {
        var pte := mem[f].ptes[i];
        BranchesStep(vm, uses, f, u, i);
        if Present(pte) && !Rwx(pte) {
          StandingChild(vm, uses, f, i);
          ghost var s1, gs := State(), loose;
          SubtreeReady(vm, uses, f, i, s0.mem, mem, fs, loose);
          FreeWalk(Frame(pte), Sub(u, i), vm, uses);
          ghost var s2 := State();
          KeepsAt(s1.mem, mem, loose, f);
          Fill(f, Table(mem[f].ptes[i := 0]));
          OutsideTrans(s0, s1, s2, 0, 0, 0, 0);
          OutsideTrans(s0, s2, State(), 0, 0, 0, 0);
          KeepsOther(s2.mem, f, mem[f], loose - {f});
          KeepsSub(s1.mem, s2.mem, loose, loose - {f});
          KeepsTrans(s1.mem, s2.mem, mem, loose - {f}, loose - {f});
          KeepsSub(s0.mem, s1.mem, gs - {f}, loose - {f});
          KeepsTrans(s0.mem, s1.mem, mem, loose - {f}, loose - {f});
        } else if Present(pte) {
          StandingChild(vm, uses, f, i);
          assert false;
        }
        i := i + 1;
      }
      ghost var s1 := State();
      Kfree(f);
      OutsideTrans(s0, s1, State(), 0, 0, 0, 0);
      KeepsTrans(s0.mem, s1.mem, mem, loose, loose);
    }

    method IsMapped(p: nat, vpn: nat) returns (mapped: bool)
      requires Inv() && p in procs && procs[p].root != 0 && vpn < MAXVPN
      modifies this`mem, this`free, this`owner, this`loose, this`refusals
      ensures mapped <==> Present(LeafPte(State(), p, vpn))
      ensures State() == old(State()) && owner == old(owner) && loose == old(loose)
      ensures refusals == old(refusals)
    {
      Indices(vpn);
      LowTable(ram, State(), owner, loose, p, vpn);
      PresentFrame(ram, State(), owner, loose, 0, I0(vpn));
      hide Owned, SameAt, LowOf, Keeps, Present;
      var low := Walk(p, vpn, false);
      mapped := low != 0 && Present(mem[low].ptes[I0(vpn)]);
      assert !Present(0) by { assert 0 % 2 == 0; }
    }

    /** The page table is taken from `p` and its tables freed: `freewalk`, and
        `p->pagetable = 0`. */
    method FreeTables(p: nat)
      requires Inv() && p in procs && procs[p].root != 0 && AllUnmapped(State(), p)
      modifies this`mem, this`free, this`owner, this`loose, this`procs
      ensures Inv() && loose == old(loose) && procs == old(procs)[p := old(procs)[p].(root := 0)]
      ensures Outside(old(State()), State(), p, 0, NVPN) && Releases(old(owner), owner, p)
          && Keeps(old(mem), mem, old(loose))
    {
      ghost var vm, uses := State(), Tables(owner, p);
      var root := procs[p].root;
      UnrootOwned(ram, vm, owner, loose, p);
      StandingTables(ram, vm, owner, loose, p);
      TreeRoot(ram, vm, owner, loose, p);
      hide Owned, SameAt, Keeps, Standing, LeafPte, Tables, Subtree;
      procs := procs[p := procs[p].(root := 0)];
      owner := owner - uses.Keys;
      loose := loose + uses.Keys;
      ghost var vm1 := State();
      KeepsSame(mem, uses.Keys);
      FreeWalk(root, Root(p), vm, uses);
      OutsideWiden(vm, vm1, State(), p, 0, 0);
    }

    method UnmapIfMapped(p: nat, vpn: nat)
      requires Inv() && p in procs && procs[p].root != 0 && vpn < TRAPFRAME
      modifies this`mem, this`free, this`owner, this`loose, this`refusals
      ensures Inv() && Deleted(old(State()), State(), p, vpn, vpn + 1) && Releases(old(owner), owner, p)
      ensures loose == old(loose) + Held(old(State()), p, vpn, vpn + 1)
      ensures refusals == old(refusals)
    {
      hide Owned, SameAt, Keeps, LeafPte, PageAt, Releases;
      ghost var vm := State();
      var mapped := IsMapped(p, vpn);
      SameTreesView(vm, vm);
      ReleasesOne(owner, p, 0);
      if mapped {
        UvmUnmap(p, vpn, 1, false);
      } else {
        assert Outside(vm, vm, p, vpn, vpn + 1);
      }
    }

    /** `proc_freepagetable`: all the pages below the size go back, those at the two fixed
        addresses are only unmapped. */
    method FreePageTable(p: nat, sz: nat)
      requires Inv() && p in procs && procs[p].root != 0 && Up(sz) <= TRAPFRAME
      requires forall v: nat :: v < NVPN && Present(LeafPte(State(), p, v)) ==> v < Up(sz) || v == SHMEM || v == ROPAGE || Special(v)
      modifies this`mem, this`free, this`owner, this`loose, this`procs, this`refusals
      ensures Inv() && loose == old(loose) + Leaked(old(State()), p)
          && procs == old(procs)[p := old(procs)[p].(root := 0)]
      ensures Outside(old(State()), State(), p, 0, NVPN) && Releases(old(owner), owner, p)
      ensures refusals == old(refusals)
    {
      hide Owned, SameAt, Keeps, LeafPte, PageAt, Present, Releases, Names, Held, Up;
      ghost var s0, w0 := State(), owner;
      UnmapIfMapped(p, SHMEM);
      ghost var s1, w1 := State(), owner;
      UnmapIfMapped(p, ROPAGE);
      ghost var s2, w2 := State(), owner;
      HeldSame(s0, s1, p, SHMEM, SHMEM + 1, ROPAGE);
      UvmUnmap(p, TRAMPOLINE, 1, false);
      ghost var s3, w3 := State(), owner;
      HeldSpecial(s2, p, TRAMPOLINE);
      UvmUnmap(p, TRAPFRAME, 1, false);
      ghost var s4, w4 := State(), owner;
      HeldSpecial(s3, p, TRAPFRAME);
      if sz > 0 {
        UvmUnmap(p, 0, Up(sz), true);
      } else {
        DeletedNone(s4, p);
        ReleasesOne(owner, p, 0);
      }
      ghost var s5, w5 := State(), owner;
      NothingLeft(s0, s1, s2, s3, s4, s5, p, Up(sz));
      ReleasesTrans(w0, w1, w2, p);
      ReleasesTrans(w0, w2, w3, p);
      ReleasesTrans(w0, w3, w4, p);
      ReleasesTrans(w0, w4, w5, p);
      FreeTables(p);
      ReleasesTrans(w0, w5, owner, p);
      OutsideWiden(s0, s5, State(), p, 0, NVPN);
    }

    method FreeTrapframe(p: nat)
      requires Inv() && p in procs
      modifies this`mem, this`free, this`owner, this`loose, this`procs
      ensures Inv() && loose == old(loose) && procs == old(procs)[p := old(procs)[p].(trapframe := 0)]
      ensures SameView(old(State()), State()) && Releases(old(owner), owner, p)
    {
      hide Owned, SameAt, Releases, LeafPte, PageAt;
      ghost var vm := State();
      var f := procs[p].trapframe;
      ReleasesOne(owner, p, f);
      SameTreesView(vm, vm);
      if f != 0 {
        UntrapOwned(ram, State(), owner, loose, p);
        NotLoose(ram, vm, owner, loose, f);
        procs := procs[p := procs[p].(trapframe := 0)];
        owner := owner - {f};
        loose := loose + {f};
        ghost var vm1 := State();
        Kfree(f);
        OutsideTrans(vm, vm1, State(), 0, 0, 0, 0);
      }
    }

    /** The region, then the page table and all it maps. */
    method FreeMemory(p: nat)
      requires Inv() && Confined(State(), p)
      modifies this`mem, this`free, this`owner, this`loose, this`procs, this`refusals
      ensures Inv() && loose == old(loose) + Leaked(old(State()), p)
          && procs == old(procs)[p := old(procs)[p].(root := 0)]
      ensures Outside(old(State()), State(), p, 0, NVPN) && Releases(old(owner), owner, p)
      ensures refusals == old(refusals)
    {
      hide Owned, SameAt, Keeps, LeafPte, PageAt, Present, Releases, Leaked, Up;
      ghost var s0, w0 := State(), owner;
      if procs[p].rpages > 0 {
        UvmUnmap(p, procs[p].rstart, procs[p].rpages, true);
      } else {
        SameTreesView(s0, s0);
        assert Outside(s0, s0, p, procs[p].rstart, procs[p].rstart);
        ReleasesOne(owner, p, 0);
      }
      ghost var s1, w1 := State(), owner;
      AfterRegion(s0, s1, p);
      FreePageTable(p, procs[p].sz);
      assert Outside(s0, s1, p, 0, NVPN);
      OutsideWiden(s0, s1, State(), p, 0, NVPN);
      ReleasesTrans(w0, w1, owner, p);
    }

    /** `freeproc`. */
    method FreeProc(p: nat)
      requires Inv() && p in procs && (procs[p].root != 0 ==> Confined(State(), p))
      modifies this`mem, this`free, this`owner, this`loose, this`procs, this`refusals
      ensures Inv() && loose == old(loose) + Leaked(old(State()), p) && procs == old(procs) - {p}
      ensures Outside(old(State()), State(), p, 0, NVPN)
      ensures forall f :: f in free <==> f in old(free) || (f in old(owner) && old(owner)[f].p == p && f !in Leaked(old(State()), p))
      ensures refusals == old(refusals)
    {
      hide Owned, SameAt, LeafPte, PageAt, Present, Releases, Leaked, Confined;
      ghost var s0, w0 := State(), owner;
      FreeTrapframe(p);
      ghost var s1, w1 := State(), owner;
      LeakedSame(s0, s1, p);
      assert Outside(s0, s1, p, 0, NVPN);
      if procs[p].root != 0 {
        ConfinedSame(s0, s1, p);
        FreeMemory(p);
        OutsideWiden(s0, s1, State(), p, 0, NVPN);
        ReleasesTrans(w0, w1, owner, p);
      } else {
        LeakedNone(ram, s1, owner, loose, p);
      }
      RemoveProc(p, s0, w0, old(loose));
    }

    /** The process slot is UNUSED again. */
    method RemoveProc(p: nat, ghost vm: Vm, ghost was: map<nat, Use>, ghost fs: set<nat>)
      requires Inv() && p in procs && procs[p].root == 0 && procs[p].trapframe == 0
      requires Owned(ram, vm, was, fs) && loose == fs + Leaked(vm, p) && Releases(was, owner, p)
          && Outside(vm, State(), p, 0, NVPN)
      modifies this`procs
      ensures Inv() && procs == old(procs) - {p} && Outside(vm, State(), p, 0, NVPN)
      ensures forall f :: f in free <==> f in vm.free || (f in was && was[f].p == p && f !in Leaked(vm, p))
    {
      hide Owned, SameAt, Leaked, Releases;
      ghost var s1 := State();
      procs := procs - {p};
      SameTreesView(s1, State());
      SameTreesOwned(ram, s1, owner, loose, State());
      OutsideWiden(vm, s1, State(), p, 0, 0);
      NoneLeft(ram, State(), owner, loose, p);
      LeakedOwned(ram, vm, was, fs, p);
      GivenBack(ram, vm, was, fs, State(), owner, loose, p, Leaked(vm, p));
    }

    /** `uvmcreate`, and the process takes the empty table. */
    method UvmCreate(p: nat) returns (ok: bool)
      requires Inv() && p in procs && procs[p].root == 0
      modifies this`mem, this`free, this`owner, this`loose, this`procs, this`refusals
      ensures Inv() && loose == old(loose) && SameView(old(State()), State())
      ensures forall v: nat :: LeafPte(old(State()), p, v) == 0
      ensures if ok then p in procs && procs[p].root != 0 && procs == old(procs)[p := old(procs)[p].(root := procs[p].root)] else procs == old(procs)
      ensures refusals == old(refusals) + if ok then 0 else 1
      ensures |free| >= |old(free)| - 1 && (!ok ==> |old(free)| < 1)
    {
      ghost var vm := State();
      NoTable(ram, vm, owner, loose, p);
      hide Owned, SameAt, LeafPte, PageAt;
      var f := NewFrame(Table(Zeros()));
      if f == 0 {
        return false;
      }
      ghost var vm2 := State();
      RootOwned(ram, vm2, owner, loose, p, f);
      procs := procs[p := procs[p].(root := f)];
      owner := owner[f := Root(p)];
      loose := loose - {f};
      OutsideTrans(vm, vm2, State(), 0, 0, 0, 0);
      return true;
    }

    /** `proc_pagetable`. */
    method ProcPageTable(p: nat) returns (ok: bool)
      requires Inv() && p in procs && procs[p].root == 0 && procs[p].trapframe != 0
      modifies this`mem, this`free, this`owner, this`loose, this`procs, this`refusals
      ensures Inv() && loose == old(loose) && Outside(old(State()), State(), p, 0, NVPN)
      ensures if ok then Blank(State(), p, trampoline) && procs == old(procs)[p := old(procs)[p].(root := procs[p].root)] else procs == old(procs)
      ensures refusals == old(refusals) + if ok then 0 else 1
      ensures ok ==> |free| >= |old(free)| - 5
      ensures !ok ==> |old(free)| < 5
    {
      hide Owned, SameAt, LeafPte, PageAt, Present, Rwx, MakePte, Keeps, Releases, Given, Held, Valid;
      ghost var vm := State();
      ok := UvmCreate(p);
      ghost var s1 := State();
      assert Outside(vm, s1, p, 0, NVPN);
      if !ok {
        return;
      }
      BlankStart(vm, s1, p);
      PermSpecial();
      ghost var k;
      ok, k := MapPages(p, TRAMPOLINE, 1, trampoline, PERM_RX);
      ghost var s2 := State();
      OutsideWiden(vm, s1, s2, p, TRAMPOLINE, TRAMPOLINE + k);
      GivenSpecial(TRAMPOLINE, k, trampoline);
      if !ok {
        BlankUndo(s1, s2, p);
        FreeTables(p);
        OutsideWiden(vm, s2, State(), p, 0, NVPN);
        return;
      }
      BlankNext(s1, s2, p);
      ok, k := MapPages(p, TRAPFRAME, 1, procs[p].trapframe, PERM_RW);
      ghost var s3 := State();
      OutsideWiden(vm, s2, s3, p, TRAPFRAME, TRAPFRAME + k);
      GivenSpecial(TRAPFRAME, k, procs[p].trapframe);
      if !ok {
        UvmUnmap(p, TRAMPOLINE, 1, false);
        ghost var s4 := State();
        HeldSpecial(s3, p, TRAMPOLINE);
        OutsideWiden(vm, s3, s4, p, TRAMPOLINE, TRAMPOLINE + 1);
        BlankUndo2(s1, s2, s3, s4, p);
        FreeTables(p);
        OutsideWiden(vm, s4, State(), p, 0, NVPN);
        return;
      }
      BlankMapped(s1, s2, s3, p, trampoline, procs[p].trapframe);
    }

    /** `allocproc`: the first unused slot gets a trapframe and a page table. */
    method AllocProc() returns (ok: bool, p: nat)
      requires Inv() && Tidy(State())
      modifies this`mem, this`free, this`owner, this`loose, this`procs, this`refusals
      ensures Inv() && Tidy(State()) && loose == old(loose) && Outside(old(State()), State(), p, 0, NVPN)
      ensures !ok ==> procs == old(procs) && SameView(old(State()), State())
      ensures ok ==> p < NPROC && p !in old(procs) && (forall q :: 0 <= q < p ==> q in old(procs)) && Blank(State(), p, trampoline)
      ensures ok ==> procs == old(procs)[p := Proc(procs[p].root, procs[p].trapframe, 0, 0, 0, 0)]
      ensures refusals == old(refusals) + if ok || p == NPROC then 0 else 1
      ensures p <= NPROC && (p == NPROC ==> !ok && forall q :: 0 <= q < NPROC ==> q in old(procs))
      ensures ok ==> |free| >= |old(free)| - 6
      ensures !ok && p < NPROC ==> |old(free)| < 6
    {
      hide Owned, SameAt, LeafPte, PageAt, Present, Rwx, MakePte, Confined, Tidy, Leaked, Outside, Blank;
      ghost var vm, w, fs := State(), owner, loose;
      SameTreesView(vm, vm);
      p := 0;
      while p < NPROC && p in procs
        invariant p <= NPROC && forall q :: 0 <= q < p ==> q in procs
      {
        p := p + 1;
      }
      SameViewOutside(vm, vm, p);
      if p == NPROC {
        return false, p;
      }
      procs := procs[p := Proc(0, 0, 0, 0, 0, 0)];
      ghost var s1 := State();
      SameTreesView(vm, s1);
      SameTreesOwned(ram, vm, owner, loose, s1);
      ok := GiveTrapframe(p);
      ghost var s2 := State();
      OutsideTrans(vm, s1, s2, 0, 0, 0, 0);
      if ok {
        ok := ProcPageTable(p);
        OutsideWiden(vm, s2, State(), p, 0, NVPN);
      }
      ghost var s3 := State();
      if ok {
        BlankConfined(s3, p, trampoline);
      } else {
        LeakedNone(ram, s3, owner, loose, p);
        FreeProc(p);
        assert loose == fs;
        OutsideWiden(vm, s3, State(), p, 0, NVPN);
        AbsentSame(ram, vm, w, fs, State(), owner, p);
        assert procs == old(procs);
      }
      TidyStep(vm, State(), p, 0, NVPN);
    }

    method GiveTrapframe(p: nat) returns (ok: bool)
      requires Inv() && p in procs && procs[p].trapframe == 0
      modifies this`mem, this`free, this`owner, this`loose, this`procs, this`refusals
      ensures Inv() && loose == old(loose) && SameView(old(State()), State())
      ensures !ok ==> procs == old(procs)
      ensures ok ==> p in procs && procs[p].trapframe != 0
      ensures ok ==> procs == old(procs)[p := old(procs)[p].(trapframe := procs[p].trapframe)]
      ensures refusals == old(refusals) + if ok then 0 else 1
      ensures |free| >= |old(free)| - 1 && (!ok ==> |old(free)| < 1)
    {
      hide Owned, SameAt, LeafPte, PageAt;
      ghost var vm := State();
      var f := Kalloc();
      if f == 0 {
        return false;
      }
      ghost var s1 := State();
      Fill(f, Bytes(Filled(5)));
      ghost var s2 := State();
      TrapOwned(ram, s2, owner, loose, p, f);
      procs := procs[p := procs[p].(trapframe := f)];
      owner := owner[f := Trap(p)];
      loose := loose - {f};
      OutsideTrans(vm, s1, s2, 0, 0, 0, 0);
      OutsideTrans(vm, s2, State(), 0, 0, 0, 0);
      return true;
    }

    method VmFault(p: nat, va: nat) returns (ok: bool)
      requires Inv() && Confined(State(), p)
      modifies this`mem, this`free, this`owner, this`loose, this`refusals
      ensures Inv() && Confined(State(), p) && loose == old(loose)
      ensures ok ==> va < procs[p].sz && !old(Present(LeafPte(State(), p, va / PGSIZE)))
      ensures ok ==> Zeroed(old(State()), State(), p, va / PGSIZE, va / PGSIZE + 1, PTE_V + PTE_R + PTE_W + PTE_U)
      ensures !ok ==> SameView(old(State()), State())
      ensures ok ==> refusals == old(refusals)
      ensures !ok ==> va >= procs[p].sz || Present(LeafPte(State(), p, va / PGSIZE)) || refusals > old(refusals)
      ensures |free| >= |old(free)| - 3 && (refusals > old(refusals) ==> |old(free)| < 3)
    {
      hide Owned, SameAt, LeafPte, PageAt, Present, Rwx, MakePte, Keeps, Valid;
      ghost var vm := State();
      SameTreesView(vm, vm);
      if va >= procs[p].sz {
        return false;
      }
      var v := va / PGSIZE;
      BelowSize(va, procs[p].sz);
      var mapped := IsMapped(p, v);
      if mapped {
        return false;
      }
      assert UserPerm(PTE_W) == PTE_W + PTE_U + PTE_R;
      ok := NewPage(p, v, Filled(0), PTE_W + PTE_U + PTE_R);
      ConfinedAdd(vm, State(), p, v);
    }

    /** The size, region or fault count of a process. */
    method SetFields(p: nat, pr: Proc)
      requires Inv() && p in procs && pr.root == procs[p].root && pr.trapframe == procs[p].trapframe
      modifies this`procs
      ensures Inv() && procs == old(procs)[p := pr] && SameView(old(State()), State())
    {
      hide Owned, SameAt;
      ghost var vm := State();
      procs := procs[p := pr];
      SameTreesView(vm, State());
      SameTreesOwned(ram, vm, owner, loose, State());
    }

    method ServeFault(p: nat, va: nat) returns (ok: bool)
      requires Inv() && Confined(State(), p)
      modifies this`mem, this`free, this`owner, this`loose, this`refusals
      ensures Inv() && Confined(State(), p) && loose == old(loose)
      ensures if ok then FaultServed(old(State()), State(), p, va / PGSIZE) else SameView(old(State()), State())
      ensures !ok ==> !(InRegion(procs[p], va / PGSIZE) || va < procs[p].sz) || Present(LeafPte(State(), p, va / PGSIZE)) || refusals > old(refusals)
      ensures ok ==> refusals == old(refusals)
      ensures |free| >= |old(free)| - 3 && (refusals > old(refusals) ==> |old(free)| < 3)
    {
      hide Owned, SameAt, LeafPte, PageAt, Present, Rwx, MakePte, Keeps, Valid, Up, Flags, UserPerm;
      ghost var vm := State();
      SameTreesView(vm, vm);
      var v := va / PGSIZE;
      RegionPages(va, procs[p].rstart, procs[p].rpages);
      if procs[p].rpages > 0 && procs[p].rstart * PGSIZE <= va < (procs[p].rstart + procs[p].rpages) * PGSIZE {
        var mapped := IsMapped(p, v);
        if mapped {
          return false;
        }
        ok := NewPage(p, v, Filled(65), UserPerm(PTE_W));
        ConfinedAdd(vm, State(), p, v);
      } else {
        ok := VmFault(p, va);
        if ok { BelowSize(va, procs[p].sz); }
      }
    }

    /** The page-fault branch of `usertrap`; false when the process is killed. */
    method PageFault(p: nat, va: nat) returns (ok: bool)
      requires Inv() && Tidy(State()) && p in procs
      modifies this`mem, this`free, this`owner, this`loose, this`procs, this`refusals
      ensures Inv() && Tidy(State()) && loose == old(loose)
      ensures procs == old(procs)[p := old(procs)[p].(faults := old(procs)[p].faults + if ok then 1 else 0)]
      ensures if ok then FaultServed(old(State()), State(), p, va / PGSIZE) else SameView(old(State()), State())
      ensures !ok ==> !(InRegion(procs[p], va / PGSIZE) || va < procs[p].sz) || Present(LeafPte(State(), p, va / PGSIZE)) || refusals > old(refusals)
      ensures ok ==> refusals == old(refusals)
      ensures |free| >= |old(free)| - 3 && (refusals > old(refusals) ==> |old(free)| < 3)
    {
      hide Owned, SameAt, LeafPte, PageAt, Present, Allowed, Up, Flags;
      ghost var vm := State();
      assert Confined(vm, p);
      ok := ServeFault(p, va);
      ghost var s1 := State();
      if ok {
        SetFields(p, procs[p].(faults := procs[p].faults + 1));
        FaultServedSame(vm, s1, State(), p, va / PGSIZE);
        ConfinedSame(s1, State(), p);
        TidyStep(vm, State(), p, va / PGSIZE, va / PGSIZE + 1);
      } else {
        TidyStep(vm, State(), p, 0, 0);
      }
    }

    /** The memory part of `growproc`; 0 when there is not enough of it. */
    method Resize(p: nat, n: int) returns (sz: nat)
      requires Inv() && Confined(State(), p) && -0x8000_0000 <= n < 0x8000_0000 && n != 0
      requires n > 0 ==> procs[p].sz + n <= MAXSZ
      requires n > 0 ==> forall v: nat :: Up(procs[p].sz) <= v < Up(procs[p].sz + n) ==> !Present(LeafPte(State(), p, v))
      modifies this`mem, this`free, this`owner, this`loose, this`refusals
      ensures Inv() && loose == old(loose)
      ensures n > 0 && sz == 0 ==> Deleted(old(State()), State(), p, Up(procs[p].sz), Up(procs[p].sz + n))
      ensures n > 0 && sz != 0 ==> sz == procs[p].sz + n && Zeroed(old(State()), State(), p, Up(procs[p].sz), Up(sz), PTE_V + PTE_R + PTE_U + PTE_W)
      ensures n < 0 ==> sz == (if procs[p].sz + n < 0 then procs[p].sz else procs[p].sz + n)
      ensures n < 0 ==> Deleted(old(State()), State(), p, Up(sz), Up(procs[p].sz))
      ensures refusals == old(refusals) + if n > 0 && sz == 0 then 1 else 0
    {
      hide Owned, SameAt, LeafPte, PageAt, Present, Up, UserPerm, Plus, Flags;
      ghost var vm := State();
      if n > 0 {
        UpMono(procs[p].sz + n, MAXSZ);
        sz := UvmAlloc(p, procs[p].sz, Plus(procs[p].sz, n), PTE_W);
      } else {
        SameTreesView(vm, vm);
        sz := UvmDealloc(p, procs[p].sz, Plus(procs[p].sz, n));
        assert sz == procs[p].sz ==> Outside(vm, vm, p, Up(sz), Up(sz));
      }
    }

    /** `growproc`: growth maps zeroed pages at once. */
    method GrowProc(p: nat, n: int) returns (ok: bool)
      requires Inv() && Tidy(State()) && p in procs && -0x8000_0000 <= n < 0x8000_0000
      requires n > 0 && procs[p].sz + n <= MAXSZ ==> forall v: nat :: Up(procs[p].sz) <= v < Up(procs[p].sz + n) ==> !Present(LeafPte(State(), p, v))
      modifies this`mem, this`free, this`owner, this`loose, this`procs, this`refusals
      ensures Inv() && Tidy(State()) && loose == old(loose)
      ensures p in procs && procs == old(procs)[p := old(procs)[p].(sz := procs[p].sz)]
      ensures ok ==> Resized(old(procs)[p].sz, n) == procs[p].sz <= MAXSZ
      ensures ok && n > 0 ==> Zeroed(old(State()), State(), p, Up(old(procs)[p].sz), Up(procs[p].sz), PTE_V + PTE_R + PTE_U + PTE_W)
      ensures ok && n <= 0 ==> Deleted(old(State()), State(), p, Up(procs[p].sz), Up(old(procs)[p].sz))
      ensures !ok ==> procs == old(procs) && n > 0
      ensures !ok && procs[p].sz + n <= MAXSZ ==> Deleted(old(State()), State(), p, Up(procs[p].sz), Up(procs[p].sz + n))
      ensures !ok && procs[p].sz + n > MAXSZ ==> State() == old(State())
      ensures refusals == old(refusals) + if ok || procs[p].sz + n > MAXSZ then 0 else 1
    {
      hide Owned, SameAt, LeafPte, PageAt, Present, Up, UserPerm, Flags, Allowed;
      ghost var vm := State();
      assert Confined(vm, p);
      SameTreesView(vm, vm);
      var sz := procs[p].sz;
      if n > 0 && Plus(sz, n) > MAXSZ {
        return false;
      }
      if n != 0 {
        sz := Resize(p, n);
        if n > 0 && sz == 0 {
          GrowFailed(vm, State(), p, n);
          return false;
        }
      } else {
        assert Outside(vm, vm, p, Up(sz), Up(sz));
      }
      ghost var s1 := State();
      SetFields(p, procs[p].(sz := sz));
      GrowDone(vm, s1, State(), p, n);
      return true;
    }

    /** `sys_sbrk`: growth only moves the size. The old size, or -1. */
    method Sbrk(p: nat, n: int) returns (addr: int)
      requires Inv() && Tidy(State()) && p in procs && -0x8000_0000 <= n < 0x8000_0000
      modifies this`mem, this`free, this`owner, this`loose, this`procs, this`refusals
      ensures Inv() && Tidy(State()) && loose == old(loose)
      ensures addr == if old(procs)[p].sz + n > MAXSZ then -1 else old(procs)[p].sz
      ensures procs == old(procs)[p := old(procs)[p].(sz := if addr < 0 then old(procs)[p].sz else Resized(old(procs)[p].sz, n))]
      ensures n >= 0 ==> SameView(old(State()), State()) && mem == old(mem) && free == old(free)
      ensures n < 0 ==> Deleted(old(State()), State(), p, Up(Resized(old(procs)[p].sz, n)), Up(old(procs)[p].sz))
      ensures refusals == old(refusals)
    {
      hide Owned, SameAt, LeafPte, PageAt, Present, Up, Allowed;
      ghost var vm := State();
      assert Confined(vm, p);
      SameTreesView(vm, vm);
      var sz := procs[p].sz;
      addr := sz;
      if n < 0 {
        var ok := GrowProc(p, n);
        if !ok {
          return -1;
        }
      } else {
        if Plus(sz, n) < sz {
          return -1;
        }
        if Plus(sz, n) > MAXSZ {
          return -1;
        }
        SetFields(p, procs[p].(sz := sz + n));
        UpMono(sz, sz + n);
        assert Outside(vm, vm, p, Up(sz), Up(sz + n));
        ConfinedResize(vm, vm, State(), p, sz + n);
        TidyStep(vm, State(), p, 0, 0);
      }
    }

    /** `sys_mapzero`: reserves a region of `size` bytes; the start address, or -1. */
    method MapZero(p: nat, size: int) returns (addr: int)
      requires Inv() && Tidy(State()) && p in procs && -0x8000_0000 <= size < 0x8000_0000
      modifies this`procs
      ensures Inv() && Tidy(State()) && SameView(old(State()), State())
      ensures addr == if 0 < size <= 0x7fff_f000 && old(procs)[p].rpages == 0 then REGION * PGSIZE else -1
      ensures procs == if addr < 0 then old(procs) else old(procs)[p := old(procs)[p].(rstart := REGION, rpages := Up(size))]
    {
      hide Owned, SameAt, LeafPte, PageAt, Present;
      ghost var vm := State();
      assert Confined(vm, p);
      SameTreesView(vm, vm);
      if size <= 0 {
        return -1;
      }
      // PGROUNDUP in 32-bit arithmetic; past the last page it is negative and
      // `start + size < start` rejects it.
      if size > 0x7fff_f000 {
        return -1;
      }
      if procs[p].rpages > 0 {
        return -1;
      }
      if REGION * PGSIZE + Up(size) * PGSIZE >= MAXSZ {
        return -1;
      }
      SetFields(p, procs[p].(rstart := REGION, rpages := Up(size)));
      ConfinedRegion(vm, State(), p);
      TidyStep(vm, State(), p, 0, 0);
      return REGION * PGSIZE;
    }

    /** The entry of a user page and the bytes it maps. */
    method Look(p: nat, v: nat) returns (mapped: bool, flags: nat, b: seq<byte>)
      requires Inv() && p in procs && procs[p].root != 0 && v < TRAPFRAME
      modifies this`mem, this`free, this`owner, this`loose, this`refusals
      ensures State() == old(State()) && owner == old(owner) && loose == old(loose)
      ensures (mapped <==> Present(LeafPte(State(), p, v))) && b == PageAt(State(), p, v)
      ensures mapped ==> flags == Flags(LeafPte(State(), p, v)) && flags < 1024 && Present(flags) && Rwx(flags) && |b| == PGSIZE
      ensures refusals == old(refusals)
    {
      ghost var vm := State();
      Indices(v);
      LowTable(ram, vm, owner, loose, p, v);
      PresentFrame(ram, vm, owner, loose, 0, I0(v));
      LeafShape(ram, vm, owner, loose, p, v);
      FlagsOf(0);
      hide Owned, SameAt, LowOf, Keeps, Present, Rwx, Flags, Frame, PageAt;
      var low := Walk(p, v, false);
      if low == 0 || !Present(mem[low].ptes[I0(v)]) {
        return false, 0, [];
      }
      var pte := mem[low].ptes[I0(v)];
      return true, Flags(pte), mem[Frame(pte)].b;
    }

    /** `uvmcopy`: the first `n` pages of `p` copied to `c`; all undone if memory runs out. */
    method UvmCopy(p: nat, c: nat, n: nat) returns (ok: bool)
      requires Inv() && p in procs && procs[p].root != 0 && c in procs && procs[c].root != 0 && p != c && n <= TRAPFRAME
      requires forall v: nat :: v < n ==> !Present(LeafPte(State(), c, v))
      modifies this`mem, this`free, this`owner, this`loose, this`refusals
      ensures Inv() && loose == old(loose)
      ensures if ok then Copied(old(State()), State(), p, c, n) else Deleted(old(State()), State(), c, 0, n)
      ensures refusals == old(refusals) + if ok then 0 else 1
      ensures !ok ==> |old(free)| < 3 * n
    {
      hide Owned, SameAt, LeafPte, PageAt, Keeps, Present, Rwx, Flags, Valid, CopyOf, Releases;
      ghost var vm := State();
      SameTreesView(vm, vm);
      assert Outside(vm, vm, c, 0, 0);
      var v := 0;
      while v < n
        invariant v <= n
        invariant Inv() && loose == old(loose) && Copied(vm, State(), p, c, v) && refusals == old(refusals)
        invariant |free| >= |old(free)| - 3 * v
      {
        ghost var vm1 := State();
        HeldStep(vm, vm1, c, 0, v);
        var mapped, flags, b := Look(p, v);
        if mapped {
          ok := NewPage(c, v, b, flags);
          if !ok {
            ghost var vm2 := State();
            UvmUnmap(c, 0, v, true);
            CopiedUndo(vm, vm1, vm2, State(), c, v, n);
            return;
          }
          CopyMade(vm1, State(), p, c, v, flags);
        } else {
          SameTreesView(vm1, vm1);
          CopySkipped(ram, vm1, owner, loose, p, c, v);
          assert Outside(vm1, vm1, c, v, v + 1);
        }
        CopiedStep(vm, vm1, State(), p, c, v);
        v := v + 1;
      }
      ok := true;
    }

    /** The memory side of `kfork`. */
    method Fork(p: nat) returns (ok: bool, c: nat)
      requires Inv() && Tidy(State()) && p in procs
      modifies this`mem, this`free, this`owner, this`loose, this`procs, this`refusals
      ensures Inv() && Tidy(State()) && loose == old(loose)
      ensures !ok ==> procs == old(procs) && SameView(old(State()), State())
      ensures ok ==> c !in old(procs) && c in procs && Outside(old(State()), State(), c, 0, NVPN)
      ensures ok ==> procs == old(procs)[c := old(procs)[p].(root := procs[c].root, trapframe := procs[c].trapframe)]
      ensures ok ==> Twin(old(State()), State(), p, c, Up(old(procs)[p].sz))
      ensures refusals == old(refusals) + if ok || c == NPROC then 0 else 1
      ensures c <= NPROC && (c == NPROC ==> !ok && forall q :: 0 <= q < NPROC ==> q in old(procs))
      ensures !ok && c < NPROC ==> |old(free)| < 6 + 3 * Up(old(procs)[p].sz)
    {
      hide Owned, SameAt, LeafPte, PageAt, Present, Rwx, MakePte, Tidy, Leaked, CopyOf, Up, Twin, Allowed;
      ghost var vm, w := State(), owner;
      TidyAt(vm, p);
      ok, c := AllocProc();
      ghost var s1 := State();
      if !ok {
        return;
      }
      BlankEmpty(s1, c, trampoline);
      ok := UvmCopy(p, c, Up(procs[p].sz));
      ghost var s2 := State();
      if !ok {
        BlankStill(s1, s2, c, trampoline, Up(procs[p].sz));
        FreeProc(c);
        assert loose == old(loose);
        OutsideWiden(vm, s1, s2, c, 0, Up(old(procs)[p].sz));
        OutsideWiden(vm, s2, State(), c, 0, NVPN);
        AbsentSame(ram, vm, w, loose, State(), owner, c);
        assert procs == old(procs);
        TidyStep(vm, State(), c, 0, NVPN);
        return;
      }
      SetFields(c, procs[p].(root := procs[c].root, trapframe := procs[c].trapframe));
      ForkDone(vm, s1, s2, State(), p, c, trampoline);
    }

    /** Any run of these operations keeps every frame in exactly one place. The frames it loses
        are those that exits leave behind at the two fixed addresses. */
    method Run(ops: seq<Op>) returns (ghost trace: seq<Vm>)
      requires Inv() && Tidy(State())
      modifies this`mem, this`free, this`owner, this`loose, this`procs, this`refusals
      ensures Inv() && Tidy(State())
      ensures |trace| == |ops| + 1 && trace[0] == old(State()) && trace[|ops|] == State()
      ensures forall i :: 0 <= i < |ops| ==> Did(trace[i], trace[i + 1], ops[i])
      ensures forall i :: 0 <= i <= |ops| ==> Accounted(ram, trace[i]) && Tidy(trace[i])
      ensures loose == old(loose) + Lost(trace, ops, |ops|) && old(loose) !! Lost(trace, ops, |ops|)
      ensures loose == old(loose) <==> CleanExits(trace, ops)
      ensures (forall i :: 0 <= i < |ops| && ops[i].Exit? && ops[i].p in trace[i].procs ==> trace[i].procs[ops[i].p].sz <= ROPAGE * PGSIZE)
              ==> loose == old(loose)
    {
      hide Owned, SameAt, LeafPte, PageAt, Present, Confined, Leaked, Did;
      trace := [State()];
      assert Accounted(ram, State());
      for i := 0 to |ops|
        invariant Inv() && Tidy(State())
        invariant |trace| == i + 1 && trace[0] == old(State()) && trace[i] == State()
        invariant forall j :: 0 <= j < i ==> Did(trace[j], trace[j + 1], ops[j])
        invariant forall j :: 0 <= j <= i ==> Accounted(ram, trace[j]) && Tidy(trace[j])
        invariant loose == old(loose) + Lost(trace, ops, i) && old(loose) !! Lost(trace, ops, i)
      {
        ghost var was := trace;
        if ops[i].p in procs {
          ghost var _ := Perform(ops[i]);
        } else {
          DidNothing(State(), ops[i]);
        }
        assert Accounted(ram, State());
        trace := trace + [State()];
        LostPrefix(was, [State()], ops, i + 1);
      }
      LostNothing(trace, ops, |ops|);
      if forall i :: 0 <= i < |ops| && ops[i].Exit? && ops[i].p in trace[i].procs ==> trace[i].procs[ops[i].p].sz <= ROPAGE * PGSIZE {
        SmallExits(trace, ops);
      }
    }

    method Perform(op: Op) returns (ghost leak: set<nat>)
      requires Inv() && Tidy(State()) && op.p in procs
      modifies this`mem, this`free, this`owner, this`loose, this`procs, this`refusals
      ensures Inv() && Tidy(State()) && loose == old(loose) + leak && leak !! old(loose)
      ensures leak == if op.Exit? then Leaked(old(State()), op.p) else {}
      ensures Did(old(State()), State(), op)
    {
      hide Owned, SameAt, LeafPte, PageAt, Present, Confined, Leaked, Tidy, FaultServed, Deleted, Twin;
      leak := {};
      match op {
        case Sbrk(p, n) =>
          TidyAt(State(), p);
          RootThere(State(), p);
          var _ := Sbrk(p, n);
        case Fault(p, va) =>
          TidyAt(State(), p);
          var ok := PageFault(p, va);
          if ok {
            assert procs[p].faults != old(procs)[p].faults;
          } else {
            assert procs == old(procs);
            FaultRefused(old(State()), State(), p, va);
          }
        case MapZero(p, size) => var _ := MapZero(p, size);
        case Fork(p) =>
          var ok, c := Fork(p);
          assert ok ==> Forked(old(State()), State(), p, c);
        case Exit(p) =>
          ghost var vm, w, fs := State(), owner, loose;
          TidyAt(vm, p);
          LeakedOwned(ram, vm, owner, loose, p);
          LeakedFresh(ram, vm, owner, loose, p);
          leak := Leaked(vm, p);
          FreeProc(p);
          TidyStep(vm, State(), p, 0, NVPN);
      }
    }

    /** A user access to address `a`: served from the page, or after one fault; false when the
        process is killed. */
    method Touch(p: nat, a: nat, write: bool) returns (ok: bool)
      requires Inv() && Tidy(State()) && p in procs && a < MAXSZ
      modifies this`mem, this`free, this`owner, this`loose, this`procs, this`refusals
      ensures Inv() && Tidy(State()) && loose == old(loose)
      ensures p in procs && procs == old(procs)[p := old(procs)[p].(faults := procs[p].faults)]
      ensures SameView(old(State()), State()) || FaultServed(old(State()), State(), p, a / PGSIZE)
      ensures ok ==> |PageAt(State(), p, a / PGSIZE)| == PGSIZE && Permits(Flags(LeafPte(State(), p, a / PGSIZE)), write)
      ensures !ok ==> !(InRegion(procs[p], a / PGSIZE) || a < procs[p].sz) || refusals > old(refusals)
                      || (Present(LeafPte(State(), p, a / PGSIZE)) && !Permits(Flags(LeafPte(State(), p, a / PGSIZE)), write))
      ensures ok ==> refusals == old(refusals)
    {
      hide Owned, SameAt, LeafPte, PageAt, Present, Flags, Confined, Rwx;
      ghost var vm := State();
      SameTreesView(vm, vm);
      TidyAt(vm, p);
      assert Confined(vm, p) ==> procs[p].root != 0 by { RootThere(vm, p); }
      var mapped, flags, b := Look(p, a / PGSIZE);
      if mapped && Permits(flags, write) {
        return true;
      }
      ok := PageFault(p, a);
      if !ok { SameViewAt(vm, State(), p, a / PGSIZE); }
    }

    method Load(p: nat, a: nat) returns (x: byte)
      requires Inv() && p in procs && procs[p].root != 0 && a < MAXSZ && |PageAt(State(), p, a / PGSIZE)| == PGSIZE
      modifies this`mem, this`free, this`owner, this`loose, this`refusals
      ensures State() == old(State()) && owner == old(owner) && loose == old(loose)
      ensures x == PageAt(State(), p, a / PGSIZE)[a % PGSIZE]
      ensures refusals == old(refusals)
    {
      hide Owned, SameAt, LeafPte, PageAt, Present, Flags, Rwx;
      var mapped, flags, b := Look(p, a / PGSIZE);
      return b[a % PGSIZE];
    }

    method Store(p: nat, a: nat, x: byte)
      requires Inv() && p in procs && procs[p].root != 0 && a < MAXSZ && |PageAt(State(), p, a / PGSIZE)| == PGSIZE
      modifies this`mem, this`free, this`owner, this`loose, this`refusals
      ensures Inv() && loose == old(loose)
      ensures var v := a / PGSIZE; Outside(old(State()), State(), p, v, v + 1) && LeafPte(State(), p, v) == LeafPte(old(State()), p, v)
      ensures var v := a / PGSIZE; PageAt(State(), p, v) == PageAt(old(State()), p, v)[a % PGSIZE := x]
      ensures refusals == old(refusals)
    {
      var v := a / PGSIZE;
      LeafShape(ram, State(), owner, loose, p, v);
      Indices(v);
      LowTable(ram, State(), owner, loose, p, v);
      hide Owned, SameAt, Keeps, Rwx, Flags;
      var low := Walk(p, v, false);
      var f := Frame(mem[low].ptes[I0(v)]);
      StoreOwned(ram, State(), owner, loose, p, v, mem[f].b[a % PGSIZE := x]);
      StoreView(ram, State(), owner, loose, p, v, mem[f].b[a % PGSIZE := x]);
      hide LeafPte, PageAt, Names, LowOf;
      mem := mem[f := Bytes(mem[f].b[a % PGSIZE := x])];
    }
  }
  /** The page at 0x50000000 is mapped by the second operation, and the exit loses its frame. */
  lemma LeakyTrace(ram: set<nat>, s0: Vm, s1: Vm, s2: Vm, p: nat, trampoline: nat)
    requires Accounted(ram, s2)
    requires Blank(s0, p, trampoline) && s0.procs[p].sz == 0 && |s0.free| >= 3
    requires Did(s0, s1, Sbrk(p, 0x5000_1000)) && Did(s1, s2, Fault(p, 0x5000_0000))
    ensures p in s2.procs && Leaked(s2, p) != {}
  {
    assert ROPAGE == 0x5000_0000 / PGSIZE && Up(0x5000_1000) == ROPAGE + 1;
    assert LeafPte(s1, p, ROPAGE) == LeafPte(s0, p, ROPAGE);
    FlagsOf(LeafPte(s2, p, ROPAGE));
    hide LeafPte, PageAt, SameAt, Outside, Owned, Flags, Leaked, Filled;
    assert FaultServed(s1, s2, p, ROPAGE);
    var owner, loose :| Owned(ram, s2, owner, loose);
    LeakedExact(ram, s2, owner, loose, p);
  }

  method LeakyRun() returns (k: Kernel)
    ensures fresh(k) && k.Inv() && k.loose != {}
  {
    hide Owned, SameAt, LeafPte, PageAt, Present, Confined, Leaked, Tidy, Blank, Outside, SameView, MakePte, Did;
    k := new Kernel(1, 20, 99);
    assert 0 !in k.procs;
    var ok, p := k.AllocProc();
    ghost var s0 := k.State();
    assert ok && |k.free| >= 3;
    var ops := [Sbrk(p, 0x5000_1000), Fault(p, 0x5000_0000), Exit(p)];
    ghost var trace := k.Run(ops);
    assert trace[0] == s0;
    assert Did(trace[0], trace[1], ops[0]) && Did(trace[1], trace[2], ops[1]);
    LeakyTrace(k.ram, trace[0], trace[1], trace[2], p, k.trampoline);
    assert ops[2].Exit?;
  }
}
