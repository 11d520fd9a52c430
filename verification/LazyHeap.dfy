/** Growing on demand and growing at once look the same to a user program: `sys_sbrk` with
    `vmfault` against `growproc`, through any run of growing, shrinking, loads and stores. */
module LazyHeap {
  import opened V = Vm

  datatype UserOp = Brk(n: int32) | Read(a: nat) | Write(a: nat, x: byte)

  /** The address space as the program knows it: a size, and the pages that are not all zero. */
  datatype RawSpace = Space(sz: nat, pages: map<nat, seq<byte>>)

  type Space = s: RawSpace | forall v :: v in s.pages ==> |s.pages[v]| == PGSIZE witness Space(0, map[])

  function Page(s: Space, v: nat): (b: seq<byte>)
    ensures |b| == PGSIZE
  {
    if v in s.pages then s.pages[v] else Filled(0)
  }

  /** Shrinking forgets the pages past the last one in use; growing does not touch any. */
  function Step(s: Space, op: UserOp): Space {
    match op
    case Brk(n) =>
      if s.sz + n > MAXSZ then s
      else var sz := Resized(s.sz, n); Space(sz, map v | v in s.pages && v < Up(sz) :: s.pages[v])
    case Read(_) => s
    case Write(a, x) => s.(pages := s.pages[a / PGSIZE := Page(s, a / PGSIZE)[a % PGSIZE := x]])
  }

  function Out(s: Space, op: UserOp): int {
    match op
    case Brk(n) => if s.sz + n > MAXSZ then -1 else s.sz
    case Read(a) => Page(s, a / PGSIZE)[a % PGSIZE]
    case Write(_, _) => 0
  }

  function Outs(s: Space, ops: seq<UserOp>): seq<int>
    decreases |ops|
  {
    if ops == [] then [] else [Out(s, ops[0])] + Outs(Step(s, ops[0]), ops[1..])
  }

  function Final(s: Space, ops: seq<UserOp>): Space
    decreases |ops|
  {
    if ops == [] then s else Final(Step(s, ops[0]), ops[1..])
  }

  lemma {:induction false} OutsSnoc(s: Space, ops: seq<UserOp>, i: nat)
    requires i < |ops|
    ensures Outs(s, ops[..i + 1]) == Outs(s, ops[..i]) + [Out(Final(s, ops[..i]), ops[i])]
    ensures Final(s, ops[..i + 1]) == Step(Final(s, ops[..i]), ops[i])
    decreases i
  {
    assert ops[..i + 1][0] == ops[0];
    if i == 0 {
      assert ops[..1][1..] == [];
    } else {
      assert ops[..i + 1][1..] == ops[1..][..i] && ops[..i][1..] == ops[1..][..i - 1];
      OutsSnoc(Step(s, ops[0]), ops[1..], i - 1);
    }
  }

  // ---------- the kernel's state as such a space ----------

  /** A page the user would see, were it mapped now. */
  function Shown(vm: Vm, p: nat, v: nat): seq<byte> {
    if PageAt(vm, p, v) == [] then Filled(0) else PageAt(vm, p, v)
  }

  ghost predicate Shows(vm: Vm, p: nat, s: Space) {
    p in vm.procs && vm.procs[p].sz == s.sz && forall v: nat :: v < TRAPFRAME ==> Shown(vm, p, v) == Page(s, v)
  }

  /** A page is shown the same when its contents are the same, or when it was not mapped
      and now holds zeros. */
  lemma ShownAt(vm: Vm, vm2: Vm, p: nat, v: nat)
    requires (v < NVPN && !Special(v) && SameAt(vm, vm2, p, v)) || (PageAt(vm, p, v) == [] && PageAt(vm2, p, v) == Filled(0))
    ensures Shown(vm2, p, v) == Shown(vm, p, v)
  {
    hide PageAt, LeafPte;
  }

  lemma Unmapped(k: Kernel, p: nat, v: nat)
    requires k.Inv() && v < TRAPFRAME && !Present(LeafPte(k.State(), p, v))
    ensures PageAt(k.State(), p, v) == []
  {
    LeafShape(k.ram, k.State(), k.owner, k.loose, p, v);
  }

  /** Faults and growth map zeros where nothing was mapped. */
  lemma ShowsZeroed(vm: Vm, vm2: Vm, p: nat, s: Space, lo: nat, hi: nat)
    requires Shows(vm, p, s) && p in vm2.procs && lo <= hi <= TRAPFRAME && Outside(vm, vm2, p, lo, hi)
    requires forall v: nat :: lo <= v < hi ==> PageAt(vm, p, v) == [] && PageAt(vm2, p, v) == Filled(0)
    ensures forall v: nat :: v < TRAPFRAME ==> Shown(vm2, p, v) == Page(s, v)
  {
    hide PageAt, LeafPte, Page;
    forall v: nat | v < TRAPFRAME ensures Shown(vm2, p, v) == Page(s, v) {
      assert !(lo <= v < hi) ==> SameAt(vm, vm2, p, v);
      ShownAt(vm, vm2, p, v);
    }
  }

  lemma ShowsDeleted(k: Kernel, vm: Vm, p: nat, s: Space, lo: nat, hi: nat)
    requires k.Inv() && Shows(vm, p, s) && lo <= hi <= TRAPFRAME && Deleted(vm, k.State(), p, lo, hi)
    requires forall v: nat :: hi <= v < TRAPFRAME ==> PageAt(vm, p, v) == []
    ensures forall v: nat :: v < TRAPFRAME ==> Shown(k.State(), p, v) == if v < lo then Page(s, v) else Filled(0)
  {
    hide PageAt, LeafPte, Page, Present;
    forall v: nat | v < TRAPFRAME ensures Shown(k.State(), p, v) == if v < lo then Page(s, v) else Filled(0) {
      if lo <= v < hi {
        Unmapped(k, p, v);
      } else {
        assert SameAt(vm, k.State(), p, v);
      }
    }
  }

  lemma ShowsStored(vm: Vm, vm2: Vm, p: nat, s: Space, a: nat, x: byte)
    requires Shows(vm, p, s) && a < MAXSZ && p in vm2.procs && vm2.procs[p].sz == vm.procs[p].sz
    requires var v := a / PGSIZE; Outside(vm, vm2, p, v, v + 1) && |PageAt(vm, p, v)| == PGSIZE
    requires PageAt(vm2, p, a / PGSIZE) == PageAt(vm, p, a / PGSIZE)[a % PGSIZE := x]
    ensures Shows(vm2, p, Step(s, Write(a, x)))
  {
    hide PageAt, LeafPte;
    forall v: nat | v < TRAPFRAME ensures Shown(vm2, p, v) == Page(Step(s, Write(a, x)), v) {
      assert v != a / PGSIZE ==> SameAt(vm, vm2, p, v);
      assert Shown(vm, p, v) == Page(s, v);
    }
  }

  // ---------- one operation ----------

  /** Ready to run: nothing but pages below the size, and showing `s`. */
  ghost predicate Ready(k: Kernel, p: nat, s: Space)
    reads k
  {
    k.Inv() && Tidy(k.State()) && Shows(k.State(), p, s) && k.procs[p].rpages == 0
  }

  /** Pages from the size up are not mapped. */
  lemma AboveSize(k: Kernel, p: nat, s: Space)
    requires Ready(k, p, s)
    ensures Up(s.sz) <= TRAPFRAME && s.sz <= MAXSZ
    ensures forall v: nat :: Up(s.sz) <= v < TRAPFRAME ==> !Present(LeafPte(k.State(), p, v)) && PageAt(k.State(), p, v) == []
  {
    TidyAt(k.State(), p);
    hide LeafPte, PageAt, Present, Up;
    forall v: nat | Up(s.sz) <= v < TRAPFRAME ensures !Present(LeafPte(k.State(), p, v)) && PageAt(k.State(), p, v) == [] {
      Unmapped(k, p, v);
    }
  }

  /** A served fault shows the program nothing new. */
  lemma ShowsTouched(k: Kernel, vm: Vm, owner: map<nat, Use>, p: nat, s: Space, v: nat)
    requires Owned(k.ram, vm, owner, k.loose) && Shows(vm, p, s) && vm.procs[p].rpages == 0 && p in k.procs
        && k.procs[p].sz == vm.procs[p].sz
    requires SameView(vm, k.State()) || FaultServed(vm, k.State(), p, v)
    ensures Shows(k.State(), p, s)
  {
    hide Owned, LeafPte, PageAt, Present, Flags, Page;
    if SameView(vm, k.State()) {
      assert Outside(vm, k.State(), p, 0, 0);
      ShowsZeroed(vm, k.State(), p, s, 0, 0);
    } else {
      LeafShape(k.ram, vm, owner, k.loose, p, v);
      ShowsZeroed(vm, k.State(), p, s, v, v + 1);
    }
  }

  /** The three ways `sbrk` changes memory, seen by the program. */
  lemma GrownShows(k: Kernel, vm: Vm, p: nat, s: Space, n: int32)
    requires k.Inv() && Shows(vm, p, s) && s.sz <= MAXSZ && s.sz + n <= MAXSZ && p in k.procs
        && k.procs[p].sz == Resized(s.sz, n)
    requires forall v: nat :: Up(s.sz) <= v < TRAPFRAME ==> PageAt(vm, p, v) == []
    requires (SameView(vm, k.State()) && n >= 0)
          || (Zeroed(vm, k.State(), p, Up(s.sz), Up(k.procs[p].sz), PTE_V + PTE_R + PTE_U + PTE_W) && n > 0)
          || (Deleted(vm, k.State(), p, Up(k.procs[p].sz), Up(s.sz)) && n <= 0)
    ensures Shows(k.State(), p, Step(s, Brk(n)))
  {
    var a, b := s.sz, k.procs[p].sz;
    UpMono(if n < 0 then b else a, if n < 0 then a else b);
    hide Up, PageAt, LeafPte, Present, Flags, Page, SameAt;
    if Deleted(vm, k.State(), p, Up(b), Up(a)) && n <= 0 {
      ShowsDeleted(k, vm, p, s, Up(b), Up(a));
    } else if SameView(vm, k.State()) {
      assert Outside(vm, k.State(), p, 0, 0);
      ShowsZeroed(vm, k.State(), p, s, 0, 0);
    } else {
      ShowsZeroed(vm, k.State(), p, s, Up(a), Up(b));
    }
    forall v: nat | v < TRAPFRAME ensures Shown(k.State(), p, v) == Page(Step(s, Brk(n)), v) {
      PageStep(s, n, v);
      assert Shown(vm, p, v) == Page(s, v);
    }
  }

  lemma PageStep(s: Space, n: int32, v: nat)
    requires s.sz + n <= MAXSZ
    ensures Page(Step(s, Brk(n)), v) == if v < Up(Resized(s.sz, n)) then Page(s, v) else Filled(0)
  {
    hide Up, Filled;
  }

  /** The page is mapped, but not for this kind of access. */
  ghost predicate Forbidden(vm: Vm, p: nat, op: UserOp)
    requires !op.Brk?
  {
    var e := LeafPte(vm, p, op.a / PGSIZE);
    Present(e) && !Permits(Flags(e), op.Write?)
  }

  method Access(k: Kernel, p: nat, op: UserOp, ghost s: Space) returns (ok: bool, out: int)
    requires Ready(k, p, s) && !op.Brk?
    modifies k
    ensures k.Inv() && Tidy(k.State()) && k.loose == old(k.loose)
    ensures ok ==> op.a < s.sz && out == Out(s, op) && Ready(k, p, Step(s, op))
    ensures ok ==> k.refusals == old(k.refusals)
    ensures !ok ==> op.a >= s.sz || k.refusals > old(k.refusals) || Forbidden(k.State(), p, op)
  {
    hide Owned, LeafPte, PageAt, Present, Flags, Confined, SameAt, FaultServed, Page;
    ghost var vm := k.State();
    TidyAt(vm, p);
    RootThere(vm, p);
    if op.a >= k.procs[p].sz {
      return false, 0;
    }
    ok := k.Touch(p, op.a, op.Write?);
    ghost var s1 := k.State();
    ShowsTouched(k, vm, old(k.owner), p, s, op.a / PGSIZE);
    if !ok {
      return false, 0;
    }
    assert Shown(s1, p, op.a / PGSIZE) == Page(s, op.a / PGSIZE);
    if op.Read? {
      out := k.Load(p, op.a);
    } else {
      k.Store(p, op.a, op.x);
      out := 0;
      ShowsStored(s1, k.State(), p, s, op.a, op.x);
      StoreTidy(s1, k.State(), p, op.a / PGSIZE);
    }
  }

  lemma StoreTidy(vm: Vm, vm2: Vm, p: nat, v: nat)
    requires Tidy(vm) && p in vm.procs && vm2.procs == vm.procs && Outside(vm, vm2, p, v, v + 1)
        && LeafPte(vm2, p, v) == LeafPte(vm, p, v)
    ensures Tidy(vm2)
  {
    TidyAt(vm, p);
    hide Tidy, LeafPte, PageAt, Present, Up;
    forall w: nat | w < NVPN ensures LeafPte(vm2, p, w) == LeafPte(vm, p, w) {
      assert w != v ==> SameAt(vm, vm2, p, w);
    }
    TidyStep(vm, vm2, p, v, v + 1);
  }

  /** `sbrk(n)`: with `eager`, as if it were `growproc` for growth too. */
  method Grow(k: Kernel, p: nat, n: int32, eager: bool, ghost s: Space) returns (ok: bool, out: int)
    requires Ready(k, p, s)
    modifies k
    ensures k.Inv() && Tidy(k.State()) && k.loose == old(k.loose)
    ensures ok ==> out == Out(s, Brk(n)) && Ready(k, p, Step(s, Brk(n)))
    ensures !ok ==> eager && n > 0 && k.refusals > old(k.refusals)
    ensures ok ==> k.refusals == old(k.refusals)
  {
    hide Owned, LeafPte, PageAt, Present, Flags, Confined, SameAt, Page, Up;
    ghost var vm := k.State();
    AboveSize(k, p, s);
    var sz := k.procs[p].sz;
    UpMono(if n < 0 then Resized(sz, n) else sz, if n < 0 then sz else sz + n);
    if eager {
      ok := k.GrowProc(p, n);
      if !ok && sz + n <= MAXSZ {
        return false, 0;
      }
      out := if ok then sz else -1;
      if sz + n <= MAXSZ {
        GrownShows(k, vm, p, s, n);
      }
    } else {
      out := k.Sbrk(p, n);
      if sz + n <= MAXSZ {
        GrownShows(k, vm, p, s, n);
      } else {
        ShowsTouched(k, vm, old(k.owner), p, s, 0);
      }
    }
    ok := true;
  }

  /** Why a run may stop: kalloc found no frame, or the access was not a permitted one below
      the size. */
  ghost predicate Stopped(k: Kernel, p: nat, op: UserOp, s: Space, refusals: nat)
    reads k
  {
    k.refusals > refusals || (!op.Brk? && (op.a >= s.sz || Forbidden(k.State(), p, op)))
  }

  /** The first `at` operations, all of them unless the run is stopped, get the answers of the
      specification. */
  method Run(k: Kernel, p: nat, ops: seq<UserOp>, eager: bool, ghost s: Space)
    returns (ok: bool, outs: seq<int>, ghost at: nat)
    requires Ready(k, p, s)
    modifies k
    ensures k.Inv() && Tidy(k.State()) && k.loose == old(k.loose)
    ensures at <= |ops| && outs == Outs(s, ops[..at]) && (ok <==> at == |ops|)
    ensures ok ==> Ready(k, p, Final(s, ops))
    ensures !ok ==> Stopped(k, p, ops[at], Final(s, ops[..at]), old(k.refusals))
  {
    outs, at := [], 0;
    assert ops[..0] == [];
    for i := 0 to |ops|
      invariant k.loose == old(k.loose) && Ready(k, p, Final(s, ops[..i])) && k.refusals == old(k.refusals)
      invariant at == i && outs == Outs(s, ops[..i])
    {
      ghost var t := Final(s, ops[..i]);
      var out;
      if ops[i].Brk? {
        ok, out := Grow(k, p, ops[i].n, eager, t);
      } else {
        ok, out := Access(k, p, ops[i], t);
      }
      if !ok {
        return;
      }
      OutsSnoc(s, ops, i);
      outs := outs + [out];
      at := at + 1;
    }
    assert ops[..|ops|] == ops;
    ok := true;
  }

  /** Two processes, in kernels of their own, with the same size and the same bytes. */
  ghost predicate Alike(k: Kernel, p: nat, e: Kernel, q: nat)
    reads k, e
  {
    && p in k.procs && q in e.procs && k.procs[p].sz == e.procs[q].sz
    && forall v: nat :: v < TRAPFRAME ==> Shown(k.State(), p, v) == Shown(e.State(), q, v)
  }

  lemma {:induction false} OutsPrefix(s: Space, ops: seq<UserOp>, i: nat, j: nat)
    requires i <= j <= |ops|
    ensures Outs(s, ops[..i]) <= Outs(s, ops[..j])
    decreases j
  {
    if i < j {
      OutsPrefix(s, ops, i, j - 1);
      OutsSnoc(s, ops, j - 1);
    }
  }

  /** Lazy equals eager: whatever the program does, it gets the same answers for as long as
      neither run is stopped, and if both go to the end it has the same bytes. */
  method Compare(k: Kernel, p: nat, e: Kernel, q: nat, ops: seq<UserOp>)
    returns (lazyOk: bool, lazy: seq<int>, eagerOk: bool, eager: seq<int>, ghost s: Space)
    requires k != e && k.Inv() && Tidy(k.State()) && e.Inv() && Tidy(e.State()) && Alike(k, p, e, q)
    requires k.procs[p].rpages == 0 && e.procs[q].rpages == 0
    modifies k, e
    ensures lazy <= eager || eager <= lazy
    ensures lazyOk && eagerOk ==> lazy == eager && |lazy| == |ops| && Alike(k, p, e, q)
    ensures Shows(old(k.State()), p, s)
    ensures !lazyOk ==> |lazy| < |ops| && Stopped(k, p, ops[|lazy|], Final(s, ops[..|lazy|]), old(k.refusals))
    ensures !eagerOk ==> |eager| < |ops| && Stopped(e, q, ops[|eager|], Final(s, ops[..|eager|]), old(e.refusals))
  {
    hide Owned, PageAt, Tidy;
    s := SpaceOf(k, p);
    ghost var i, j;
    assert Ready(e, q, s);
    lazyOk, lazy, i := Run(k, p, ops, false, s);
    eagerOk, eager, j := Run(e, q, ops, true, s);
    if i <= j { OutsPrefix(s, ops, i, j); } else { OutsPrefix(s, ops, j, i); }
    OutsLength(s, ops[..i]);
    OutsLength(s, ops[..j]);
  }

  lemma {:induction false} OutsLength(s: Space, ops: seq<UserOp>)
    ensures |Outs(s, ops)| == |ops|
    decreases |ops|
  {
    if ops != [] {
      OutsLength(Step(s, ops[0]), ops[1..]);
    }
  }

  lemma SpaceOf(k: Kernel, p: nat) returns (s: Space)
    requires k.Inv() && Tidy(k.State()) && p in k.procs && k.procs[p].rpages == 0
    ensures Ready(k, p, s)
  {
    var vm := k.State();
    forall v: nat | v < TRAPFRAME ensures |Shown(vm, p, v)| == PGSIZE {
      LeafShape(k.ram, vm, k.owner, k.loose, p, v);
    }
    hide Owned, PageAt, Tidy;
    s := Space(k.procs[p].sz, map v: nat | v < TRAPFRAME :: Shown(vm, p, v));
  }
}
