/** Sleep locks as clients of `sleep` and `wakeup`: kernel/sleeplock.c. Sleep lock `l` is the
    condition "not locked" guarded by spinlock `l`, and processes wait for it on channel `l`. */
module SleepLock {
  import opened SleepWakeup

  /** What a process is in the middle of. */
  datatype Task =
    | Free
    | Want(l: nat)      // in acquiresleep
    | Taken(l: nat)     // ... has set `locked`, still holds the spinlock
    | Giving(l: nat)    // in releasesleep
    | Given(l: nat)     // ... has cleared `locked`

  datatype Locks = Locks(
    base: State,
    task: seq<Task>,
    own: seq<int>,           // the pid field of each sleep lock
    mine: seq<set<nat>>)     // the sleep locks each process believes it holds

  datatype Move =
    | StartAcquire(p: nat, l: nat) | Take(p: nat) | EndAcquire(p: nat) | Doze(p: nat)
    | StartRelease(p: nat, l: nat) | Give(p: nat) | EndRelease(p: nat)
    | Inside(a: Action)      // a step within sleep, wakeup, kkill or the scheduler

  ghost predicate Fits(s: Locks) {
    Shape(s.base) && |s.task| == |s.mine| == |s.base.pc| && |s.own| == |s.base.lk|
  }

  predicate Internal(a: Action) {
    !a.Acquire? && !a.Release? && !a.MakeFalse? && !a.MakeTrue? && !a.Sleep?
  }

  /** Each move is one step of `sleep`, `wakeup` and the locks below. */
  function Under(s: Locks, v: Move): Action
    requires !v.Inside? ==> v.p < |s.task|
  {
    match v
    case StartAcquire(p, l) => Acquire(p, l)
    case Take(p) => MakeFalse(p, if s.task[p].Free? then 0 else s.task[p].l)
    case EndAcquire(p) => Release(p, if s.task[p].Free? then 0 else s.task[p].l)
    case Doze(p) => Sleep(p, if s.task[p].Free? then 0 else s.task[p].l)
    case StartRelease(p, l) => Acquire(p, l)
    case Give(p) => MakeTrue(p, if s.task[p].Free? then 0 else s.task[p].l)
    case EndRelease(p) => Release(p, if s.task[p].Free? then 0 else s.task[p].l)
    case Inside(a) => a
  }

  ghost predicate May(s: Locks, v: Move)
    requires Fits(s)
  {
    && (!v.Inside? ==> v.p < |s.task|) && Enabled(s.base, Under(s, v))
    && match v
       case StartAcquire(p, l) => s.task[p] == Free
       case Take(p) => s.task[p].Want? && s.base.cond[s.task[p].l]
       case EndAcquire(p) => s.task[p].Taken?
       case Doze(p) => s.task[p].Want?      // while(lk->locked) sleep(...)
       case StartRelease(p, l) => s.task[p] == Free && l in s.mine[p]
       case Give(p) => s.task[p].Giving?
       case EndRelease(p) => s.task[p].Given?
       case Inside(a) => Internal(a)
  }

  ghost function After(s: Locks, v: Move): Locks
    requires Fits(s) && May(s, v)
  {
    var t := s.(base := Next(s.base, Under(s, v)));
    match v
    case StartAcquire(p, l) => t.(task := s.task[p := Want(l)])
    case Take(p) => t.(task := s.task[p := Taken(s.task[p].l)], own := s.own[s.task[p].l := p])
    case EndAcquire(p) => t.(task := s.task[p := Free], mine := s.mine[p := s.mine[p] + {s.task[p].l}])
    case Doze(p) => t
    case StartRelease(p, l) => t.(task := s.task[p := Giving(l)])
    case Give(p) => t.(task := s.task[p := Given(s.task[p].l)], own := s.own[s.task[p].l := NOBODY], mine := s.mine[p := s.mine[p] - {s.task[p].l}])
    case EndRelease(p) => t.(task := s.task[p := Free])
    case Inside(_) => t
  }

  // ---------- the invariant ----------

  /** `p` is between setting and clearing `locked` of `l`. */
  predicate Holds(s: Locks, p: nat, l: nat)
    requires p < |s.task| == |s.mine|
  {
    l in s.mine[p] || s.task[p] == Taken(l)
  }

  ghost predicate LockInv(s: Locks) {
    && Fits(s) && Inv(s.base)
    && (forall l: nat :: l < |s.own| ==> (s.base.cond[l] <==> s.own[l] == NOBODY))
    && (forall l: nat :: l < |s.own| && s.own[l] != NOBODY ==> 0 <= s.own[l] < |s.task| && Holds(s, s.own[l], l))
    && (forall p: nat, l: nat :: p < |s.task| && Holds(s, p, l) ==> l < |s.own| && s.own[l] == p)
    && (forall p: nat :: p < |s.task| && s.task[p].Giving? ==> s.task[p].l in s.mine[p])
  }

  /** Who holds a lock after a move is what its pid field says. */
  lemma HoldsAfter(s: Locks, v: Move, p: nat, l: nat)
    requires LockInv(s) && May(s, v) && p < |s.task|
    ensures var t := After(s, v); |t.task| == |t.mine| == |s.task| && |t.own| == |s.own|
    ensures var t := After(s, v); Holds(t, p, l) ==> l < |t.own| && t.own[l] == p
    ensures var t := After(s, v); l < |t.own| && t.own[l] == p ==> Holds(t, p, l)
  {
    assert Holds(s, p, l) ==> l < |s.own| && s.own[l] == p;
    assert l < |s.own| && s.own[l] == p ==> Holds(s, p, l);
    if v.Take? || v.EndAcquire? || v.Give? {
      assert Holds(s, v.p, s.task[v.p].l) ==> s.own[s.task[v.p].l] == v.p;
      assert s.task[v.p].Giving? ==> s.task[v.p].l in s.mine[v.p];
    }
    hide LockInv, Enabled, Next;
  }

  lemma MoveInv(s: Locks, v: Move)
    requires LockInv(s) && May(s, v)
    ensures LockInv(After(s, v))
  {
    StepInv(s.base, Under(s, v));
    var t := After(s, v);
    CondAfter(s, v);
    assert forall l: nat :: l < |t.own| && t.own[l] != NOBODY ==> 0 <= t.own[l] < |t.task|;
    assert forall l: nat :: l < |t.own| ==> (t.base.cond[l] <==> t.own[l] == NOBODY);
    forall p: nat, l: nat | p < |t.task| && Holds(t, p, l) ensures l < |t.own| && t.own[l] == p {
      HoldsAfter(s, v, p, l);
    }
    forall l: nat | l < |t.own| && t.own[l] != NOBODY ensures Holds(t, t.own[l], l) {
      HoldsAfter(s, v, t.own[l], l);
    }
    hide Inv, Holds, Enabled, Next;
  }

  lemma CondAfter(s: Locks, v: Move)
    requires Fits(s) && May(s, v)
    ensures var t := After(s, v); |t.base.pc| == |s.base.pc| && |t.base.lk| == |s.base.lk| && Shape(t.base)
    ensures After(s, v).base.cond ==
            if v.Take? then s.base.cond[s.task[v.p].l := false]
            else if v.Give? then s.base.cond[s.task[v.p].l := true]
            else s.base.cond
  {
  }

  // ---------- every run ----------

  ghost predicate Start(s: Locks) {
    && Fits(s) && Init(s.base)
    && (forall l :: 0 <= l < |s.own| ==> s.base.cond[l] && s.own[l] == NOBODY)
    && (forall p :: 0 <= p < |s.task| ==> s.task[p] == Free && s.mine[p] == {})
  }

  ghost predicate Moves(r: Locks, v: Move, s: Locks) {
    Fits(r) && May(r, v) && s == After(r, v)
  }

  ghost predicate Gets(s: Locks, n: nat)
    decreases n
  {
    if n == 0 then Start(s) else exists r, v :: Gets(r, n - 1) && Moves(r, v, s)
  }

  /** Every run keeps the invariant and is a run of `sleep` and `wakeup`. */
  lemma {:induction false} GetsInv(s: Locks, n: nat)
    requires Gets(s, n)
    ensures LockInv(s) && Reaches(s.base, n)
    decreases n
  {
    hide LockInv, After, May;
    if n == 0 {
      StartInv(s);
    } else {
      var r, v :| Gets(r, n - 1) && Moves(r, v, s);
      GetsInv(r, n - 1);
      MoveInv(r, v);
      MoveRefines(r, v, s);
    }
  }

  lemma StartInv(s: Locks)
    requires Start(s)
    ensures LockInv(s)
  {
    InitInv(s.base);
    hide Inv;
  }

  lemma MoveRefines(r: Locks, v: Move, s: Locks)
    requires Moves(r, v, s)
    ensures exists a :: Step(r.base, a, s.base)
  {
    hide Next;
    assert Step(r.base, Under(r, v), s.base);
  }

  /** At most one process is between `acquiresleep(l)` and `releasesleep(l)`. */
  lemma MutualExclusion(s: Locks, n: nat, p: nat, q: nat, l: nat)
    requires Gets(s, n) && |s.mine| == |s.task| && p < |s.mine| && q < |s.mine| && l in s.mine[p] && l in s.mine[q]
    ensures p == q
  {
    GetsInv(s, n);
    assert Holds(s, p, l) && Holds(s, q, l);
  }

  /** While the spinlock is free, a process sleeps on a sleep lock only if another holds it. */
  lemma NoStuckWaiter(s: Locks, n: nat, p: nat, l: nat)
    requires Gets(s, n) && Fits(s) && p < |s.task| && l < |s.own| && s.base.lk[l] == NOBODY
    requires s.base.status[p] == Sleeping && s.base.chan[p] == l
    ensures exists q: nat :: q < |s.task| && Holds(s, q, l)
  {
    GetsInv(s, n);
    if s.base.cond[l] {
      NoLostWakeup(s.base, p, l);
      assert false;
    }
    var q := s.own[l];
    assert Holds(s, q, l);
  }
}
