/** `sleep`, `wakeup` and `yield` on many CPUs: kernel/proc.c. Every step is one lock
    acquisition, one release or one group of field updates under a lock, and any process may
    take the next step. A condition `m` is data guarded by spinlock `m`; channel `m` is where
    processes wait for it. */
module SleepWakeup {

  datatype Status = Sleeping | Runnable | Running

  /** Where a process is: inside `sleep` from `Locking` to `Retake`, inside `wakeup` at `Waking`
      and `Poking`, inside `kkill` at `Killing`, inside `yield` from `Yielding` to `Resumed`, and
      anywhere else at `Run`. A timer interrupt makes a process yield wherever it holds no
      spinlock; `back` is the channel when that is at the end of `sleep`, NOBODY at `Run`. */
  datatype Pc =
    | Run
    | Locking(m: nat)          // tested the condition, wants its own p->lock
    | Releasing(m: nat)        // has it, wants to release the condition lock
    | Marking(m: nat)          // has released it, wants to set chan and state
    | Switching(m: nat)        // has set them, wants to leave the CPU
    | Asleep(m: nat)           // off the CPU
    | Awake(m: nat)            // on a CPU again, p->lock held
    | Retake(m: nat)           // wants the condition lock back
    | Waking(m: nat, i: nat)   // in the loop of wakeup, about to look at process i
    | Poking(m: nat, i: nat)   // holds process i's lock
    | Killing(i: nat)          // holds process i's lock, in kkill
    | Yielding(back: int)      // holds its own p->lock, no longer marked running
    | Ready(back: int)         // off the CPU
    | Resumed(back: int)       // on a CPU again, p->lock held

  const NOBODY: int := -1

  datatype State = State(
    pc: seq<Pc>,
    status: seq<Status>,
    chan: seq<int>,
    plock: seq<int>,    // holder of each p->lock
    lk: seq<int>,       // holder of each condition lock
    cond: seq<bool>)    // the condition holds: nobody needs to wait

  ghost predicate Shape(s: State) {
    |s.status| == |s.chan| == |s.plock| == |s.pc| && |s.cond| == |s.lk|
  }

  datatype Action =
    | Acquire(p: nat, m: nat) | Release(p: nat, m: nat)
    | MakeFalse(p: nat, m: nat) | MakeTrue(p: nat, m: nat)
    | LookNext(p: nat) | Poke(p: nat) | WakeupDone(p: nat)
    | Sleep(p: nat, m: nat) | LockSelf(p: nat) | ReleaseCond(p: nat) | Mark(p: nat) | Switch(p: nat)
    | Schedule(p: nat) | Tidy(p: nat) | TakeBack(p: nat)
    | Kill(p: nat, i: nat) | KillDone(p: nat)
    | GiveUp(p: nat) | Leave(p: nat) | Resume(p: nat) | YieldDone(p: nat)

  ghost predicate HoldsOnly(s: State, p: nat, m: nat) {
    forall k :: 0 <= k < |s.lk| && s.lk[k] == p ==> k == m
  }

  ghost predicate HoldsNone(s: State, p: nat) {
    forall k :: 0 <= k < |s.lk| ==> s.lk[k] != p
  }

  ghost predicate Enabled(s: State, a: Action)
    requires Shape(s)
  {
    a.p < |s.pc| &&
    match a
    case Acquire(p, m) => s.pc[p] == Run && m < |s.lk| && s.lk[m] == NOBODY
    case Release(p, m) => s.pc[p] == Run && m < |s.lk| && s.lk[m] == p
    case MakeFalse(p, m) => s.pc[p] == Run && m < |s.lk| && s.lk[m] == p
    // changing the condition so that waiters may go on; wakeup follows at once
    case MakeTrue(p, m) => s.pc[p] == Run && m < |s.lk| && s.lk[m] == p
    case LookNext(p) => s.pc[p].Waking? && s.pc[p].i < |s.pc| && (s.pc[p].i != p ==> s.plock[s.pc[p].i] == NOBODY)
    case Poke(p) => s.pc[p].Poking? && s.pc[p].i < |s.pc|
    case WakeupDone(p) => s.pc[p].Waking? && s.pc[p].i >= |s.pc|
    // the caller tested the condition under its lock, and holds no other
    case Sleep(p, m) => s.pc[p] == Run && m < |s.lk| && s.lk[m] == p && !s.cond[m] && HoldsOnly(s, p, m)
    case LockSelf(p) => s.pc[p].Locking? && s.plock[p] == NOBODY
    case ReleaseCond(p) => s.pc[p].Releasing? && s.pc[p].m < |s.lk|
    case Mark(p) => s.pc[p].Marking?
    case Switch(p) => s.pc[p].Switching?
    case Schedule(p) => s.pc[p].Asleep? && s.status[p] == Runnable && s.plock[p] == NOBODY
    case Tidy(p) => s.pc[p].Awake?
    case TakeBack(p) => s.pc[p].Retake? && s.pc[p].m < |s.lk| && s.lk[s.pc[p].m] == NOBODY
    case Kill(p, i) => s.pc[p] == Run && i < |s.pc| && s.plock[i] == NOBODY
    case KillDone(p) => s.pc[p].Killing? && s.pc[p].i < |s.pc|
    case GiveUp(p) => (s.pc[p] == Run || s.pc[p].Retake?) && s.plock[p] == NOBODY && HoldsNone(s, p)
    case Leave(p) => s.pc[p].Yielding?
    case Resume(p) => s.pc[p].Ready? && s.status[p] == Runnable && s.plock[p] == NOBODY
    case YieldDone(p) => s.pc[p].Resumed?
  }

  ghost function Next(s: State, a: Action): State
    requires Shape(s) && Enabled(s, a)
  {
    var p := a.p;
    match a
    case Acquire(_, m) => s.(lk := s.lk[m := p])
    case Release(_, m) => s.(lk := s.lk[m := NOBODY])
    case MakeFalse(_, m) => s.(cond := s.cond[m := false])
    case MakeTrue(_, m) => s.(cond := s.cond[m := true], pc := s.pc[p := Waking(m, 0)])
    case LookNext(_) =>
      var m, i := s.pc[p].m, s.pc[p].i;
      if i == p then s.(pc := s.pc[p := Waking(m, i + 1)])
      else s.(pc := s.pc[p := Poking(m, i)], plock := s.plock[i := p])
    case Poke(_) =>
      var m, i := s.pc[p].m, s.pc[p].i;
      s.(pc := s.pc[p := Waking(m, i + 1)], plock := s.plock[i := NOBODY],
         status := if s.status[i] == Sleeping && s.chan[i] == m then s.status[i := Runnable] else s.status)
    case WakeupDone(_) => s.(pc := s.pc[p := Run])
    case Sleep(_, m) => s.(pc := s.pc[p := Locking(m)])
    case LockSelf(_) => s.(pc := s.pc[p := Releasing(s.pc[p].m)], plock := s.plock[p := p])
    case ReleaseCond(_) => s.(pc := s.pc[p := Marking(s.pc[p].m)], lk := s.lk[s.pc[p].m := NOBODY])
    case Mark(_) => s.(pc := s.pc[p := Switching(s.pc[p].m)], chan := s.chan[p := s.pc[p].m], status := s.status[p := Sleeping])
    case Switch(_) => s.(pc := s.pc[p := Asleep(s.pc[p].m)], plock := s.plock[p := NOBODY])
    case Schedule(_) => s.(pc := s.pc[p := Awake(s.pc[p].m)], plock := s.plock[p := p], status := s.status[p := Running])
    case Tidy(_) => s.(pc := s.pc[p := Retake(s.pc[p].m)], plock := s.plock[p := NOBODY], chan := s.chan[p := NOBODY])
    case TakeBack(_) => s.(pc := s.pc[p := Run], lk := s.lk[s.pc[p].m := p])
    case Kill(_, i) => s.(pc := s.pc[p := Killing(i)], plock := s.plock[i := p])
    case KillDone(_) =>
      var i := s.pc[p].i;
      s.(pc := s.pc[p := Run], plock := s.plock[i := NOBODY],
         status := if s.status[i] == Sleeping then s.status[i := Runnable] else s.status)
    case GiveUp(_) =>
      s.(pc := s.pc[p := Yielding(if s.pc[p].Retake? then s.pc[p].m else NOBODY)], plock := s.plock[p := p], status := s.status[p := Runnable])
    case Leave(_) => s.(pc := s.pc[p := Ready(s.pc[p].back)], plock := s.plock[p := NOBODY])
    case Resume(_) => s.(pc := s.pc[p := Resumed(s.pc[p].back)], plock := s.plock[p := p], status := s.status[p := Running])
    case YieldDone(_) =>
      s.(pc := s.pc[p := if s.pc[p].back >= 0 then Retake(s.pc[p].back) else Run], plock := s.plock[p := NOBODY])
  }

  // ---------- the invariant ----------

  /** What each process's own fields and locks are at each point. */
  ghost predicate Local(s: State, p: nat)
    requires Shape(s) && p < |s.pc|
  {
    var pc := s.pc[p];
    && (pc.Locking? || pc.Releasing? || pc.Waking? || pc.Poking? ==> pc.m < |s.lk| && s.lk[pc.m] == p)
    && (pc.Marking? || pc.Switching? || pc.Asleep? || pc.Awake? || pc.Retake? ==> pc.m < |s.lk| && HoldsNone(s, p))
    && (pc.Yielding? || pc.Ready? || pc.Resumed? ==> pc.back < |s.lk| && HoldsNone(s, p))
    && (pc.Waking? || pc.Poking? ==> s.cond[pc.m])
    && (pc.Locking? || pc.Releasing? ==> !s.cond[pc.m] && HoldsOnly(s, p, pc.m))
    && (Own(pc) ==> s.plock[p] == p)
    && (pc.Poking? || pc.Killing? ==> pc.i < |s.pc| && s.plock[pc.i] == p && (pc.Poking? ==> pc.i != p))
    && (if pc.Switching? then s.status[p] == Sleeping else if pc.Asleep? then s.status[p] != Running
        else if pc.Yielding? || pc.Ready? then s.status[p] == Runnable else s.status[p] == Running)
    && (pc.Switching? || pc.Asleep? || pc.Awake? ==> s.chan[p] == pc.m)
  }

  /** `p` has tested the condition, let go of its lock, and will not run again by itself. */
  predicate Waiting(s: State, p: nat, m: nat)
    requires p < |s.pc| == |s.status|
  {
    s.pc[p] == Marking(m) || s.pc[p] == Switching(m) || (s.pc[p] == Asleep(m) && s.status[p] == Sleeping)
  }

  /** The holder of condition lock `m` is in `wakeup` and has yet to look at process `p`. */
  predicate Coming(s: State, p: nat, m: nat)
    requires m < |s.lk|
  {
    var w := s.lk[m];
    0 <= w < |s.pc| && w != p && (s.pc[w].Waking? || s.pc[w].Poking?) && s.pc[w].m == m && s.pc[w].i <= p
  }

  /** A process's lock is held only by itself, inside `sleep` or `yield`, or by a process that
      is looking at it. */
  predicate Justified(s: State, q: nat)
    requires q < |s.pc| == |s.plock|
  {
    var h := s.plock[q];
    h == NOBODY || (0 <= h < |s.pc| &&
      var pc := s.pc[h];
      if pc.Poking? || pc.Killing? then pc.i == q else h == q && Own(pc))
  }

  /** Points at which a process holds its own lock. */
  predicate Own(pc: Pc) {
    pc.Releasing? || pc.Marking? || pc.Switching? || pc.Awake? || pc.Yielding? || pc.Resumed?
  }

  ghost predicate Inv(s: State) {
    && Shape(s)
    && (forall p :: 0 <= p < |s.pc| ==> Local(s, p))
    && (forall p :: 0 <= p < |s.pc| ==> Justified(s, p))
    && (forall p, m: nat :: 0 <= p < |s.pc| && m < |s.lk| && Waiting(s, p, m) && s.cond[m] ==> Coming(s, p, m))
  }

  /** Steps of `acquire`, `release`, the owner of a condition and `yield`. */
  predicate ForLocks(a: Action) {
    a.Acquire? || a.Release? || a.MakeFalse? || a.GiveUp? || a.Leave? || a.Resume? || a.YieldDone?
  }

  predicate ForSleep(a: Action) {
    a.Sleep? || a.LockSelf? || a.ReleaseCond? || a.Mark? || a.Switch? || a.Schedule? || a.Tidy? || a.TakeBack?
  }

  /** The other steps, of `wakeup` and `kkill`. */
  predicate ForWakeup(a: Action) {
    !ForLocks(a) && !ForSleep(a)
  }

  lemma ShapeStep(s: State, a: Action)
    requires Shape(s) && Enabled(s, a)
    ensures var t := Next(s, a); Shape(t) && |t.pc| == |s.pc| == |t.status| == |t.plock| && |t.lk| == |t.cond| == |s.lk|
  {
  }

  // A step keeps what holds locally of the process that takes it,

  lemma ActorLocks(s: State, a: Action)
    requires Shape(s) && Enabled(s, a) && Local(s, a.p) && ForLocks(a)
    ensures Shape(Next(s, a)) && |Next(s, a).pc| == |s.pc| && |Next(s, a).lk| == |s.lk| && Local(Next(s, a), a.p)
  {
  }

  lemma ActorSleep(s: State, a: Action)
    requires Shape(s) && Enabled(s, a) && Local(s, a.p) && ForSleep(a)
    ensures Shape(Next(s, a)) && |Next(s, a).pc| == |s.pc| && |Next(s, a).lk| == |s.lk| && Local(Next(s, a), a.p)
  {
  }

  lemma ActorWakeup(s: State, a: Action)
    requires Shape(s) && Enabled(s, a) && Local(s, a.p) && ForWakeup(a)
    ensures Shape(Next(s, a)) && |Next(s, a).pc| == |s.pc| && |Next(s, a).lk| == |s.lk| && Local(Next(s, a), a.p)
  {
  }

  // what holds locally of any other process,

  lemma OtherLocks(s: State, a: Action, q: nat)
    requires Shape(s) && Enabled(s, a) && q < |s.pc| && q != a.p && Local(s, q) && Local(s, a.p) && ForLocks(a)
    ensures Shape(Next(s, a)) && |Next(s, a).pc| == |s.pc| && |Next(s, a).lk| == |s.lk| && Local(Next(s, a), q)
  {
  }

  lemma OtherSleep(s: State, a: Action, q: nat)
    requires Shape(s) && Enabled(s, a) && q < |s.pc| && q != a.p && Local(s, q) && Local(s, a.p) && ForSleep(a)
    ensures Shape(Next(s, a)) && |Next(s, a).pc| == |s.pc| && |Next(s, a).lk| == |s.lk| && Local(Next(s, a), q)
  {
  }

  lemma OtherWakeup(s: State, a: Action, q: nat)
    requires Shape(s) && Enabled(s, a) && q < |s.pc| && q != a.p && Local(s, q) && Local(s, a.p) && ForWakeup(a)
    ensures Shape(Next(s, a)) && |Next(s, a).pc| == |s.pc| && |Next(s, a).lk| == |s.lk| && Local(Next(s, a), q)
  {
  }

  // and the reason why a process's lock is held.

  lemma HolderLocks(s: State, a: Action, q: nat)
    requires Shape(s) && Enabled(s, a) && q < |s.pc| && Justified(s, q) && Local(s, a.p) && ForLocks(a)
    ensures Shape(Next(s, a)) && |Next(s, a).pc| == |s.pc| && |Next(s, a).lk| == |s.lk| && Justified(Next(s, a), q)
  {
  }

  lemma HolderSleep(s: State, a: Action, q: nat)
    requires Shape(s) && Enabled(s, a) && q < |s.pc| && Justified(s, q) && Local(s, a.p) && ForSleep(a)
    ensures Shape(Next(s, a)) && |Next(s, a).pc| == |s.pc| && |Next(s, a).lk| == |s.lk| && Justified(Next(s, a), q)
  {
  }

  lemma HolderWakeup(s: State, a: Action, q: nat)
    requires Shape(s) && Enabled(s, a) && q < |s.pc| && Justified(s, q) && Local(s, a.p) && ForWakeup(a)
    ensures Shape(Next(s, a)) && |Next(s, a).pc| == |s.pc| && |Next(s, a).lk| == |s.lk| && Justified(Next(s, a), q)
  {
  }

  lemma LocalStep(s: State, a: Action, q: nat)
    requires Inv(s) && Enabled(s, a) && q < |s.pc|
    ensures Shape(Next(s, a)) && |Next(s, a).pc| == |s.pc| && Local(Next(s, a), q) && Justified(Next(s, a), q)
  {
    assert Local(s, q) && Local(s, a.p) && Justified(s, q);
    hide Inv, Local, Justified, Enabled, Next, ForLocks, ForSleep;
    if ForLocks(a) {
      if q == a.p { ActorLocks(s, a); } else { OtherLocks(s, a, q); }
      HolderLocks(s, a, q);
    } else if ForSleep(a) {
      if q == a.p { ActorSleep(s, a); } else { OtherSleep(s, a, q); }
      HolderSleep(s, a, q);
    } else {
      if q == a.p { ActorWakeup(s, a); } else { OtherWakeup(s, a, q); }
      HolderWakeup(s, a, q);
    }
  }

  /** What the steps of one process have to know of the rest to keep the last clause. */
  ghost predicate Watched(s: State, p: nat, q: nat, m: nat)
    requires Shape(s) && p < |s.pc| && q < |s.pc| && m < |s.lk|
  {
    && Local(s, q) && Local(s, p) && (Waiting(s, q, m) && s.cond[m] ==> Coming(s, q, m))
    && (0 <= s.lk[m] < |s.pc| ==> Local(s, s.lk[m]))
  }

  lemma WaitLocks(s: State, a: Action, q: nat, m: nat)
    requires Shape(s) && Enabled(s, a) && q < |s.pc| && m < |s.lk| && Watched(s, a.p, q, m) && ForLocks(a)
    ensures Shape(Next(s, a)) && |Next(s, a).pc| == |s.pc| && |Next(s, a).lk| == |s.lk| && (Waiting(Next(s, a), q, m) && Next(s, a).cond[m] ==> Coming(Next(s, a), q, m))
  {
  }

  lemma WaitSleep(s: State, a: Action, q: nat, m: nat)
    requires Shape(s) && Enabled(s, a) && q < |s.pc| && m < |s.lk| && Watched(s, a.p, q, m) && ForSleep(a)
    ensures Shape(Next(s, a)) && |Next(s, a).pc| == |s.pc| && |Next(s, a).lk| == |s.lk| && (Waiting(Next(s, a), q, m) && Next(s, a).cond[m] ==> Coming(Next(s, a), q, m))
  {
  }

  lemma WaitWakeup(s: State, a: Action, q: nat, m: nat)
    requires Shape(s) && Enabled(s, a) && q < |s.pc| && m < |s.lk| && Watched(s, a.p, q, m) && ForWakeup(a)
    ensures Shape(Next(s, a)) && |Next(s, a).pc| == |s.pc| && |Next(s, a).lk| == |s.lk| && (Waiting(Next(s, a), q, m) && Next(s, a).cond[m] ==> Coming(Next(s, a), q, m))
  {
  }

  lemma WaitStep(s: State, a: Action, q: nat, m: nat)
    requires Inv(s) && Enabled(s, a) && q < |s.pc| && m < |s.lk|
    ensures Shape(Next(s, a)) && |Next(s, a).pc| == |s.pc| && |Next(s, a).lk| == |s.lk|
    ensures Waiting(Next(s, a), q, m) && Next(s, a).cond[m] ==> Coming(Next(s, a), q, m)
  {
    assert Watched(s, a.p, q, m);
    hide Inv, Enabled, Next, Waiting, Coming, Watched, ForLocks, ForSleep;
    if ForLocks(a) {
      WaitLocks(s, a, q, m);
    } else if ForSleep(a) {
      WaitSleep(s, a, q, m);
    } else {
      WaitWakeup(s, a, q, m);
    }
  }

  lemma StepInv(s: State, a: Action)
    requires Inv(s) && Enabled(s, a)
    ensures Inv(Next(s, a))
  {
    var t := Next(s, a);
    ShapeStep(s, a);
    hide Local, Justified, Waiting, Coming, Next, Enabled;
    forall q | 0 <= q < |t.pc| ensures Local(t, q) && Justified(t, q) {
      LocalStep(s, a, q);
    }
    forall q, m: nat | 0 <= q < |t.pc| && m < |t.lk| && Waiting(t, q, m) && t.cond[m] ensures Coming(t, q, m) {
      WaitStep(s, a, q, m);
    }
  }

  // ---------- every run ----------

  /** Nobody holds a lock and every process is running. */
  ghost predicate Init(s: State) {
    && Shape(s)
    && (forall p :: 0 <= p < |s.pc| ==> s.pc[p] == Run && s.status[p] == Running && s.chan[p] == NOBODY && s.plock[p] == NOBODY)
    && (forall m :: 0 <= m < |s.lk| ==> s.lk[m] == NOBODY)
  }

  ghost predicate Step(r: State, a: Action, s: State) {
    Shape(r) && Enabled(r, a) && s == Next(r, a)
  }

  ghost predicate Reaches(s: State, n: nat)
    decreases n
  {
    if n == 0 then Init(s) else exists r, a :: Reaches(r, n - 1) && Step(r, a, s)
  }

  ghost predicate Reachable(s: State) {
    exists n: nat :: Reaches(s, n)
  }

  lemma InitInv(s: State)
    requires Init(s)
    ensures Inv(s)
  {
  }

  lemma {:induction false} ReachesInv(s: State, n: nat)
    requires Reaches(s, n)
    ensures Inv(s)
    decreases n
  {
    hide Inv, Next, Enabled;
    if n == 0 {
      InitInv(s);
    } else {
      var r, a :| Reaches(r, n - 1) && Step(r, a, s);
      ReachesInv(r, n - 1);
      StepInv(r, a);
    }
  }

  /** No lost wakeup: when the condition holds and its lock is free, no process sleeps on the
      channel or is on its way to. */
  lemma NoLostWakeup(s: State, p: nat, m: nat)
    requires Reachable(s) && Shape(s) && p < |s.pc| && m < |s.lk| && s.cond[m] && s.lk[m] == NOBODY
    ensures !Waiting(s, p, m) && !(s.status[p] == Sleeping && s.chan[p] == m)
  {
    var n: nat :| Reaches(s, n);
    ReachesInv(s, n);
    assert Local(s, p);
  }

  /** At the end of `wakeup(m)` no process is asleep on `m`. */
  lemma WakeupWakesAll(s: State, w: nat, p: nat)
    requires Reachable(s) && Shape(s) && Enabled(s, WakeupDone(w)) && p < |s.pc|
    ensures s.pc[w].m < |s.lk| && s.lk[s.pc[w].m] == w
    ensures s.cond[s.pc[w].m] && !Waiting(s, p, s.pc[w].m) && !(s.status[p] == Sleeping && s.chan[p] == s.pc[w].m)
  {
    var n: nat :| Reaches(s, n);
    ReachesInv(s, n);
    assert Local(s, p) && Local(s, w);
  }

  /** Three of the panics of `sched` do not happen: a process leaves the CPU, in `sleep` or in
      `yield`, holding its own lock and no other, and not marked running. */
  lemma SchedNoPanic(s: State, p: nat)
    requires Reachable(s) && Shape(s) && (Enabled(s, Switch(p)) || Enabled(s, Leave(p)))
    ensures s.plock[p] == p && s.status[p] != Running
    ensures forall m :: 0 <= m < |s.lk| ==> s.lk[m] != p
    ensures forall q :: 0 <= q < |s.pc| && s.plock[q] == p ==> q == p
  {
    hide Next, Reaches;
    var n: nat :| Reaches(s, n);
    ReachesInv(s, n);
    assert Local(s, p);
    forall q | 0 <= q < |s.pc| && s.plock[q] == p ensures q == p {
      assert Justified(s, q);
    }
  }
}
