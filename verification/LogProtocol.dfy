/** Group commit under concurrency and crashes: every interleaving of `begin_op`,
    `log_write` and `end_op` by any number of processes, with commit and recovery advancing
    one disk write at a time and a crash possible between any two steps. */
module LogProtocol {
  import opened Blocks
  import opened Log

  /** One `log_write`: operation `op` has put `data` in block `b`. */
  datatype Update = Update(op: nat, b: word, data: Block)

  datatype Phase = Running | Commit(k: nat) | Recover(k: nat)

  datatype State = State(
    disk: Disk,
    cache: Disk,            // what bread returns
    lh: seq<word>,
    ops: map<nat, nat>,     // outstanding operations, and how many blocks each newly logged
    phase: Phase,
    base: Disk,             // the disk when the commit or recovery in progress began
    begun: set<nat>,        // every operation ever begun; numbers are not reused
    history: seq<Update>,   // updates that may survive a crash, oldest first
    mark: nat)              // how many of them are committed

  datatype Action =
    | BeginOp(op: nat)
    | LogWrite(op: nat, b: word, data: Block)
    | EndOp(op: nat)
    | CommitWrite | CommitDone
    | Crash
    | RecoverWrite | RecoverDone

  // ---------- the steps of kernel/log.c ----------

  ghost predicate Init(start: nat, s: State) {
    && Clean(start, s.disk) && s.cache == s.disk == s.base && s.lh == []
    && s.ops == map[] && s.phase == Running && s.begun == {} && s.history == [] && s.mark == 0
  }

  /** `log_write` would panic: the log is full (tested before looking for absorption), or
      no operation is outstanding. */
  predicate LogWritePanics(s: State) {
    |s.lh| >= LOGBLOCKS || s.ops == map[]
  }

  ghost predicate Enabled(start: nat, s: State, a: Action) {
    match a
    case BeginOp(op) => s.phase == Running && op !in s.begun && |s.lh| + (|s.ops| + 1) * MAXOPBLOCKS <= LOGBLOCKS
    case LogWrite(op, b, _) =>
      && s.phase == Running && op in s.ops && b < |s.disk| && !InLog(start, b) && !LogWritePanics(s)
      && (b in s.lh || s.ops[op] < MAXOPBLOCKS)
    case EndOp(op) => s.phase == Running && op in s.ops
    case CommitWrite => s.phase.Commit? && s.phase.k < CommitLength(s.lh)
    case CommitDone => s.phase.Commit? && s.phase.k == CommitLength(s.lh)
    case Crash => true
    case RecoverWrite => s.phase.Recover? && ValidHead(start, s.base) && s.phase.k < RecoveryLength(start, s.base)
    case RecoverDone => s.phase.Recover? && ValidHead(start, s.base) && s.phase.k == RecoveryLength(start, s.base)
  }

  /** What `Next` needs to be defined; part of the invariant. */
  ghost predicate Defined(start: nat, s: State) {
    && |s.cache| == |s.disk| == |s.base| && s.mark <= |s.history|
    && Layout(start, s.base) && Loggable(start, |s.base|, s.lh)
  }

  ghost function Next(start: nat, s: State, a: Action): State
    requires Enabled(start, s, a) && Defined(start, s)
  {
    match a
    case BeginOp(op) => s.(ops := s.ops[op := 0], begun := s.begun + {op})
    case LogWrite(op, b, data) =>
      s.(cache := s.cache[b := data], lh := Absorb(s.lh, b),
         ops := if b in s.lh then s.ops else s.ops[op := s.ops[op] + 1],
         history := s.history + [Update(op, b, data)])
    case EndOp(op) =>
      var rest := s.ops - {op};
      if rest == map[] then s.(ops := rest, phase := Commit(0), base := s.disk) else s.(ops := rest)
    case CommitWrite =>
      s.(disk := Committing(start, s.base, s.cache, s.lh, s.phase.k + 1), phase := Commit(s.phase.k + 1),
         mark := if s.phase.k == |s.lh| then |s.history| else s.mark)
    case CommitDone => s.(phase := Running, lh := [], cache := s.disk, mark := |s.history|)
    case Crash =>
      s.(phase := Recover(0), base := s.disk, cache := s.disk, lh := [], ops := map[], history := s.history[..s.mark])
    case RecoverWrite => s.(disk := Recovering(start, s.base, s.phase.k + 1), phase := Recover(s.phase.k + 1))
    case RecoverDone => s.(phase := Running, cache := s.disk)
  }

  // ---------- what the history means ----------

  function Replay(d: Disk, h: seq<Update>): (r: Disk)
    ensures |r| == |d|
  {
    if h == [] then d else
    var e, u := Replay(d, h[..|h|-1]), h[|h|-1];
    if u.b < |e| then e[u.b := u.data] else e
  }

  /** The committed updates and the others come from different operations. */
  ghost predicate WholeOps(h: seq<Update>, mark: nat) {
    forall i, j :: 0 <= i < mark <= j < |h| ==> h[i].op != h[j].op
  }

  /** Log blocks the outstanding operations may still claim. */
  ghost function Reserved(ops: map<nat, nat>): int {
    if ops == map[] then 0 else
    var p :| p in ops;
    MAXOPBLOCKS - ops[p] + Reserved(ops - {p})
  }

  lemma {:induction false} ReservedSplit(ops: map<nat, nat>, p: nat)
    requires p in ops
    ensures Reserved(ops) == MAXOPBLOCKS - ops[p] + Reserved(ops - {p})
  {
    var q :| q in ops && Reserved(ops) == MAXOPBLOCKS - ops[q] + Reserved(ops - {q});
    if q != p {
      ReservedSplit(ops - {q}, p);
      ReservedSplit(ops - {p}, q);
      assert ops - {q} - {p} == ops - {p} - {q};
    }
  }

  lemma {:induction false} ReservedBounds(ops: map<nat, nat>)
    requires forall p :: p in ops ==> ops[p] <= MAXOPBLOCKS
    ensures 0 <= Reserved(ops) <= MAXOPBLOCKS * |ops|
  {
    if ops != map[] {
      var p :| p in ops;
      ReservedSplit(ops, p);
      ReservedBounds(ops - {p});
      assert |ops| == |ops - {p}| + 1 by { assert (ops - {p}).Keys == ops.Keys - {p}; }
    }
  }

  // ---------- the invariant ----------

  ghost predicate HistoryOk(s: State) {
    && s.mark <= |s.history|
    && WholeOps(s.history, s.mark)
    && (forall i :: 0 <= i < |s.history| ==> s.history[i].op in s.begun)
    && (forall i :: 0 <= i < s.mark ==> s.history[i].op !in s.ops)
    && (forall p :: p in s.ops ==> p in s.begun)
  }

  /** Every outstanding operation's reservation fits in the log. */
  ghost predicate SpaceOk(s: State) {
    && (forall p :: p in s.ops ==> s.ops[p] <= MAXOPBLOCKS)
    && |s.lh| + Reserved(s.ops) <= LOGBLOCKS
  }

  ghost function Committed(boot: Disk, s: State): Disk
    requires s.mark <= |s.history|
  {
    Replay(boot, s.history[..s.mark])
  }

  ghost predicate Inv(start: nat, boot: Disk, s: State) {
    && HistoryOk(s) && SpaceOk(s)
    && |s.disk| == |s.cache| == |s.base| == |boot|
    && Stores(start, s.disk, Committed(boot, s))
    && (s.phase == Running ==>
          && Pending(start, s.disk, s.cache, s.lh)
          && SameHomes(start, s.cache, Replay(boot, s.history)))
    && (s.phase.Commit? ==>
          && s.ops == map[]
          && InCommit(start, s.base, s.cache, s.lh, s.phase.k, s.disk)
          && SameHomes(start, s.cache, Replay(boot, s.history))
          && if s.phase.k > |s.lh| then s.mark == |s.history| else SameHomes(start, s.base, Committed(boot, s)))
    && (s.phase.Recover? ==>
          && s.lh == [] && s.ops == map[] && s.mark == |s.history|
          && Stores(start, s.base, Committed(boot, s))
          && s.phase.k <= RecoveryLength(start, s.base) && s.disk == Recovering(start, s.base, s.phase.k))
  }

  /** `k` writes into the commit of `lh` that began from `base`, the disk is `d`. */
  ghost predicate InCommit(start: nat, base: Disk, cache: Disk, lh: seq<word>, k: nat, d: Disk) {
    && Pending(start, base, cache, lh) && k <= CommitLength(lh)
    && d == Committing(start, base, cache, lh, k)
  }

  // ---------- every step keeps it ----------

  lemma InitInv(start: nat, s: State)
    requires Init(start, s)
    ensures Inv(start, s.disk, s)
  {
    assert s.history[..0] == [];
    CleanStores(start, s.disk, s.disk);
  }

  lemma CleanHomes(start: nat, d: Disk, a: Disk)
    requires Clean(start, d) && Stores(start, d, a)
    ensures SameHomes(start, d, a)
  {
  }

  lemma StoresSame(start: nat, d: Disk, a: Disk, b: Disk)
    requires Stores(start, d, a) && SameHomes(start, a, b)
    ensures Stores(start, d, b)
  {
    var bs := HeadBlocks(d[start]);
    forall i | 0 <= i < |bs| ensures d[start + 1 + i] == b[bs[i]] {
    }
  }

  lemma BeginInv(start: nat, boot: Disk, s: State, op: nat)
    requires Inv(start, boot, s) && Enabled(start, s, BeginOp(op))
    ensures Inv(start, boot, Next(start, s, BeginOp(op)))
  {
    var ops := s.ops[op := 0];
    ReservedBounds(s.ops);
    ReservedSplit(ops, op);
    assert ops - {op} == s.ops;
  }

  lemma LogWriteInv(start: nat, boot: Disk, s: State, op: nat, b: word, data: Block)
    requires Inv(start, boot, s) && Enabled(start, s, LogWrite(op, b, data))
    ensures Inv(start, boot, Next(start, s, LogWrite(op, b, data)))
  {
    var t := Next(start, s, LogWrite(op, b, data));
    AbsorbPending(start, s.disk, s.cache, s.lh, b, data);
    assert t.history[..|s.history|] == s.history;
    assert t.history[..t.mark] == s.history[..s.mark];
    if b !in s.lh {
      ReservedSplit(s.ops, op);
      ReservedSplit(t.ops, op);
      assert t.ops - {op} == s.ops - {op};
    }
  }

  lemma EndInv(start: nat, boot: Disk, s: State, op: nat)
    requires Inv(start, boot, s) && Enabled(start, s, EndOp(op))
    ensures Inv(start, boot, Next(start, s, EndOp(op)))
  {
    ReservedSplit(s.ops, op);
    CleanHomes(start, s.disk, Committed(boot, s));
  }

  lemma CommitStores(start: nat, d: Disk, view: Disk, bs: seq<word>, k: nat, a: Disk)
    requires Pending(start, d, view, bs) && k <= CommitLength(bs)
    requires SameHomes(start, if k > |bs| then view else d, a)
    ensures Stores(start, Committing(start, d, view, bs, k), a)
  {
    CommitPrefix(start, d, view, bs, k);
    StoresSame(start, Committing(start, d, view, bs, k), if k > |bs| then view else d, a);
  }

  lemma BeforeHeader(start: nat, boot: Disk, s: State)
    requires Inv(start, boot, s) && Enabled(start, s, CommitWrite) && s.phase.k < |s.lh|
    ensures Inv(start, boot, Next(start, s, CommitWrite))
  {
    hide Committing, SameHomes, Stores;
    CommitStores(start, s.base, s.cache, s.lh, s.phase.k + 1, Committed(boot, s));
  }

  lemma FromHeader(start: nat, boot: Disk, s: State)
    requires Inv(start, boot, s) && Enabled(start, s, CommitWrite) && s.phase.k >= |s.lh|
    ensures Inv(start, boot, Next(start, s, CommitWrite))
  {
    hide Committing, SameHomes, Stores;
    var t := Next(start, s, CommitWrite);
    assert t.history[..t.mark] == t.history;
    CommitStores(start, s.base, s.cache, s.lh, s.phase.k + 1, Replay(boot, s.history));
  }

  lemma CommitDoneInv(start: nat, boot: Disk, s: State)
    requires Inv(start, boot, s) && Enabled(start, s, CommitDone)
    ensures Inv(start, boot, Next(start, s, CommitDone))
  {
    CommittedHome(start, s.base, s.cache, s.lh);
    AtRest(start, s.disk);
    assert s.history[..|s.history|] == s.history;
    CleanStores(start, s.disk, Replay(boot, s.history));
  }

  lemma CrashInv(start: nat, boot: Disk, s: State)
    requires Inv(start, boot, s)
    ensures Inv(start, boot, Next(start, s, Crash))
  {
    var t := Next(start, s, Crash);
    assert t.history[..t.mark] == s.history[..s.mark];
  }

  lemma RecoverInv(start: nat, boot: Disk, s: State, a: Action)
    requires Inv(start, boot, s) && Enabled(start, s, a) && (a.RecoverWrite? || a.RecoverDone?)
    ensures Inv(start, boot, Next(start, s, a))
  {
    if a.RecoverWrite? {
      RecoveryPrefix(start, s.base, Committed(boot, s), s.phase.k + 1);
    } else {
      RecoveryHome(start, s.base, Committed(boot, s));
      AtRest(start, s.disk);
      assert s.history[..s.mark] == s.history;
    }
  }

  lemma StepInv(start: nat, boot: Disk, s: State, a: Action)
    requires Inv(start, boot, s) && Enabled(start, s, a)
    ensures Inv(start, boot, Next(start, s, a))
  {
    match a
    case BeginOp(op) => BeginInv(start, boot, s, op);
    case LogWrite(op, b, data) => LogWriteInv(start, boot, s, op, b, data);
    case EndOp(op) => EndInv(start, boot, s, op);
    case CommitWrite => if s.phase.k < |s.lh| { BeforeHeader(start, boot, s); } else { FromHeader(start, boot, s); }
    case CommitDone => CommitDoneInv(start, boot, s);
    case Crash => CrashInv(start, boot, s);
    case RecoverWrite => RecoverInv(start, boot, s, a);
    case RecoverDone => RecoverInv(start, boot, s, a);
  }

  // ---------- every reachable state ----------

  /** A step from a state outside `Defined` could lead anywhere. */
  ghost predicate Step(start: nat, s: State, a: Action, t: State) {
    Enabled(start, s, a) && (Defined(start, s) ==> t == Next(start, s, a))
  }

  ghost predicate Reaches(start: nat, boot: Disk, s: State, n: nat)
    decreases n
  {
    if n == 0 then Init(start, s) && s.disk == boot
    else exists p, a :: Reaches(start, boot, p, n - 1) && Step(start, p, a, s)
  }

  ghost predicate Reachable(start: nat, boot: Disk, s: State) {
    exists n: nat :: Reaches(start, boot, s, n)
  }

  lemma InvDefined(start: nat, boot: Disk, s: State)
    requires Inv(start, boot, s)
    ensures Defined(start, s)
  {
  }

  lemma {:induction false} ReachesInv(start: nat, boot: Disk, s: State, n: nat)
    requires Reaches(start, boot, s, n)
    ensures Inv(start, boot, s)
    decreases n
  {
    if n == 0 {
      InitInv(start, s);
    } else {
      var p, a :| Reaches(start, boot, p, n - 1) && Step(start, p, a, s);
      ReachesInv(start, boot, p, n - 1);
      InvDefined(start, boot, p);
      StepInv(start, boot, p, a);
    }
  }

  /** At every moment of every run the disk, taken through any number of interrupted
      recoveries, comes back as the boot contents with a prefix of the updates applied, and
      that prefix never contains part of an operation. */
  lemma DurableWholeOperations(start: nat, boot: Disk, s: State, crashes: seq<nat>)
    requires Reachable(start, boot, s)
    ensures s.mark <= |s.history| && WholeOps(s.history, s.mark)
    ensures ValidHead(start, s.disk)
    ensures SameHomes(start, Reboot(start, s.disk, crashes), Replay(boot, s.history[..s.mark]))
  {
    var n: nat :| Reaches(start, boot, s, n);
    ReachesInv(start, boot, s, n);
    RebootStores(start, s.disk, Committed(boot, s), crashes);
  }

  /** A step moves the committed prefix only by taking in every update made so far, and
      only while no operation is outstanding. Outside commits reads see every update. */
  lemma CommitTakesAll(start: nat, boot: Disk, s: State, a: Action, t: State)
    requires Reachable(start, boot, s) && Step(start, s, a, t) && !a.Crash?
    ensures t.mark != s.mark ==> s.ops == map[] && t.mark == |t.history| && t.history == s.history
    ensures t.phase == Running ==> SameHomes(start, t.cache, Replay(boot, t.history))
    ensures t.phase.Commit? ==> t.ops == map[]
  {
    var n: nat :| Reaches(start, boot, s, n);
    ReachesInv(start, boot, s, n);
    StepInv(start, boot, s, a);
  }

  /** An operation within its budget panics in `log_write` exactly when it rewrites an
      already logged block while the log is full. */
  lemma LogWritePanic(start: nat, boot: Disk, s: State, op: nat, b: word)
    requires Reachable(start, boot, s) && op in s.ops
    requires b in s.lh || s.ops[op] < MAXOPBLOCKS
    ensures LogWritePanics(s) <==> b in s.lh && |s.lh| == LOGBLOCKS
  {
    var n: nat :| Reaches(start, boot, s, n);
    ReachesInv(start, boot, s, n);
    ReservedSplit(s.ops, op);
    ReservedBounds(s.ops - {op});
  }

  // ---------- a full log is reachable ----------

  function Share(i: nat, p: nat): nat {
    if i <= MAXOPBLOCKS * p then 0 else if i >= MAXOPBLOCKS * (p + 1) then MAXOPBLOCKS else i - MAXOPBLOCKS * p
  }

  /** Operations 0, 1 and 2 have begun, and block `31 + j` was logged by operation `j / 10`. */
  ghost predicate Filled(s: State, i: nat) {
    && s.phase == Running && |s.disk| == 61 && s.ops.Keys == {0, 1, 2}
    && s.ops[0] == Share(i, 0) && s.ops[1] == Share(i, 1) && s.ops[2] == Share(i, 2)
    && |s.lh| == i && forall j :: 0 <= j < i ==> s.lh[j] == 31 + j
  }

  function Zeros(): Disk {
    seq(61, _ => Zero())
  }

  lemma OneMore(boot: Disk, s: State, n: nat, a: Action) returns (t: State)
    requires Reaches(0, boot, s, n) && Enabled(0, s, a)
    ensures Reaches(0, boot, t, n + 1) && Defined(0, s) && t == Next(0, s, a)
  {
    ReachesInv(0, boot, s, n);
    InvDefined(0, boot, s);
    t := Next(0, s, a);
    assert Step(0, s, a, t);
  }

  lemma Booted() returns (s: State)
    ensures Reaches(0, Zeros(), s, 0) && s.phase == Running && |s.disk| == 61 && s.lh == [] && s.ops == map[]
        && s.begun == {}
  {
    ZeroWords();
    s := State(Zeros(), Zeros(), [], map[], Running, Zeros(), {}, [], 0);
  }

  lemma ThreeBegun() returns (s: State)
    ensures Reaches(0, Zeros(), s, 3) && Filled(s, 0)
  {
    hide Reaches, Defined, Zeros;
    s := Booted();
    s := OneMore(Zeros(), s, 0, BeginOp(0));
    assert s.ops == map[0 := 0];
    s := OneMore(Zeros(), s, 1, BeginOp(1));
    assert s.ops == map[0 := 0, 1 := 0];
    s := OneMore(Zeros(), s, 2, BeginOp(2));
  }

  lemma FillOne(s: State, i: nat)
    requires 0 < i <= LOGBLOCKS && Filled(s, i - 1)
    ensures Enabled(0, s, LogWrite((i - 1) / MAXOPBLOCKS, 30 + i, Zero()))
    ensures Defined(0, s) ==> Filled(Next(0, s, LogWrite((i - 1) / MAXOPBLOCKS, 30 + i, Zero())), i)
  {
    assert s.ops != map[] by { assert 0 in s.ops; }
    if Defined(0, s) {
      assert Next(0, s, LogWrite((i - 1) / MAXOPBLOCKS, 30 + i, Zero())).ops.Keys == s.ops.Keys;
    }
  }

  lemma {:induction false} FillLog(i: nat) returns (s: State)
    requires i <= LOGBLOCKS
    ensures Reaches(0, Zeros(), s, 3 + i) && Filled(s, i)
  {
    if i == 0 {
      s := ThreeBegun();
    } else {
      var p := FillLog(i - 1);
      FillOne(p, i);
      s := OneMore(Zeros(), p, 3 + i - 1, LogWrite((i - 1) / MAXOPBLOCKS, 30 + i, Zero()));
    }
  }

  /** Three operations that each log ten blocks fill the log; rewriting any of those
      blocks, which would need no log space, then panics. */
  lemma AbsorptionCanPanic()
    ensures exists start: nat, boot, s, op: nat, b: word ::
              Reachable(start, boot, s) && op in s.ops && b in s.lh && LogWritePanics(s)
  {
    var s := FillLog(LOGBLOCKS);
    assert Reachable(0, Zeros(), s);
    var b: word := 31;
    assert s.lh[0] == b;
    var op: nat := 0;
    assert op in s.ops && b in s.lh && LogWritePanics(s);
  }
}
