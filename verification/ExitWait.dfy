/** Process creation, exit and wait on many CPUs: `kfork`, `kexit`, `reparent`, `kwait` and the
    sleep inside it, in kernel/proc.c. Any process may take the next step; a step is one lock
    acquisition or release with the field updates beside it. Process 0 is init. */
module ExitWait {

  datatype Status = Unused | Used | Sleeping | Runnable | Running | Zombie

  datatype Pc =
    | None                            // an unused slot, or a child still being made
    | User                            // anywhere outside the functions below
    | ForkHave(c: nat)                // allocproc found slot c; holds its lock
    | ForkLink(c: nat)                // child filled in, its parent not yet set
    | ForkReady(c: nat)               // parent set, child not yet runnable
    | ExitWant                        // kexit, wants wait_lock
    | Repar(i: nat)                   // reparent, about to look at slot i
    | ReparWake(i: nat, j: nat)       // ... in wakeup(initproc)
    | ReparPoke(i: nat, j: nat)       // ... holding slot j's lock
    | ExitWake(j: nat)                // in wakeup(p->parent)
    | ExitPoke(j: nat)
    | ExitMark                        // about to become a zombie
    | ExitSwitch                      // a zombie, still on its CPU
    | Dead                            // a zombie, off its CPU
    | WaitWant                        // kwait, wants wait_lock
    | Scan(i: nat, have: bool)
    | Check(i: nat)                   // holds child i's lock
    | WSelf | WRel | WMark | WSwitch | WAsleep | WAwake   // sleep(p, &wait_lock)

  const NOBODY: int := -1
  const INIT: nat := 0

  /** One entry of the process table. */
  datatype Slot = Slot(
    pc: Pc,
    st: Status,
    parent: int,
    chan: int,      // the process itself while asleep in kwait
    plock: int,     // holder of p->lock
    pid: nat,
    maker: int)     // who is making the child in a USED slot

  datatype State = State(
    ps: seq<Slot>,
    wlock: int,           // holder of wait_lock
    nextpid: nat,
    reaped: set<nat>)     // pids that kwait has returned

  ghost predicate Shape(s: State) {
    |s.ps| > INIT
  }

  datatype ForkAct =
    | Elsewhere(p: nat, to: Status)     // scheduling, and sleeping on other channels
    | Kill(p: nat)
    | Pick(p: nat, c: nat) | Fail(p: nat) | Copied(p: nat) | SetParent(p: nat) | Go(p: nat)

  datatype ExitAct =
    | ExitStart(p: nat) | ExitLock(p: nat) | ReparLook(p: nat) | ReparDone(p: nat)
    | WakeLook(p: nat) | WakePoke(p: nat) | WakeDone(p: nat)
    | Die(p: nat) | Leave(p: nat)

  datatype WaitAct =
    | WaitStart(p: nat) | WaitLock(p: nat) | ScanLook(p: nat)
    | Reap(p: nat) | CopyFailed(p: nat) | NotYet(p: nat) | GiveUp(p: nat)

  datatype SleepAct =
    | Sleep(p: nat) | LockSelf(p: nat) | ReleaseWait(p: nat) | Mark(p: nat)
    | SwitchOut(p: nat) | Schedule(p: nat) | Tidy(p: nat)

  datatype Action = Forks(f: ForkAct) | Exits(e: ExitAct) | Waits(w: WaitAct) | Sleeps(z: SleepAct)

  predicate Alive(st: Status) {
    st == Sleeping || st == Runnable || st == Running
  }

  /** The channel and the slot of a process in one of its `wakeup` loops. */
  predicate InWakeup(pc: Pc) {
    pc.ReparWake? || pc.ExitWake?
  }

  predicate InPoke(pc: Pc) {
    pc.ReparPoke? || pc.ExitPoke?
  }

  function WakeChan(s: State, p: nat): int
    requires p < |s.ps|
  {
    if s.ps[p].pc.ReparWake? || s.ps[p].pc.ReparPoke? then INIT else s.ps[p].parent
  }

  function WithWake(pc: Pc, j: nat): Pc {
    if pc.ReparWake? || pc.ReparPoke? then ReparWake(pc.i, j) else ExitWake(j)
  }

  function WithPoke(pc: Pc, j: nat): Pc {
    if pc.ReparWake? || pc.ReparPoke? then ReparPoke(pc.i, j) else ExitPoke(j)
  }

  function Goto(s: State, p: nat, pc: Pc): State
    requires p < |s.ps|
  {
    s.(ps := s.ps[p := s.ps[p].(pc := pc)])
  }

  // ---------- kfork, kkill and everything else a process does ----------

  ghost predicate MayFork(s: State, a: ForkAct)
    requires Shape(s)
  {
    var p := a.p;
    && p < |s.ps| && (a.Kill? || a.Elsewhere? || s.ps[p].st == Running)
    && match a
       case Elsewhere(_, to) => s.ps[p].pc == User && Alive(s.ps[p].st) && Alive(to)
       case Kill(_) => s.ps[p].plock == NOBODY
       case Pick(_, c) => s.ps[p].pc == User && c < |s.ps| && s.ps[c].st == Unused && s.ps[c].plock == NOBODY
       case Fail(_) => s.ps[p].pc.ForkHave? && s.ps[p].pc.c < |s.ps|
       case Copied(_) => s.ps[p].pc.ForkHave? && s.ps[p].pc.c < |s.ps|
       case SetParent(_) => s.ps[p].pc.ForkLink? && s.ps[p].pc.c < |s.ps| && s.wlock == NOBODY
       case Go(_) => s.ps[p].pc.ForkReady? && s.ps[p].pc.c < |s.ps| && s.ps[s.ps[p].pc.c].plock == NOBODY
  }

  ghost function NextFork(s: State, a: ForkAct): (t: State)
    requires Shape(s) && MayFork(s, a)
    ensures Shape(t) && |t.ps| == |s.ps|
  {
    var p := a.p;
    var pc := s.ps[p].pc;
    match a
    case Elsewhere(_, to) => s.(ps := s.ps[p := s.ps[p].(st := to, chan := NOBODY)])
    case Kill(_) => if s.ps[p].st == Sleeping then s.(ps := s.ps[p := s.ps[p].(st := Runnable)]) else s
    case Pick(_, c) =>
      var t := Goto(s, p, ForkHave(c));
      t.(ps := t.ps[c := t.ps[c].(st := Used, plock := p, pid := s.nextpid, maker := p)], nextpid := s.nextpid + 1)
    case Fail(_) =>
      var t := Goto(s, p, User);
      t.(ps := t.ps[pc.c := t.ps[pc.c].(st := Unused, plock := NOBODY, parent := NOBODY)])
    case Copied(_) =>
      var t := Goto(s, p, ForkLink(pc.c));
      t.(ps := t.ps[pc.c := t.ps[pc.c].(plock := NOBODY)])
    case SetParent(_) =>
      var t := Goto(s, p, ForkReady(pc.c));
      t.(ps := t.ps[pc.c := t.ps[pc.c].(parent := p)])
    case Go(_) =>
      var t := Goto(s, p, User);
      t.(ps := t.ps[pc.c := t.ps[pc.c].(pc := User, st := Runnable, chan := NOBODY)])
  }

  // ---------- kexit and reparent ----------

  ghost predicate MayExit(s: State, a: ExitAct)
    requires Shape(s)
  {
    var p := a.p;
    && p < |s.ps| && (a.Leave? || s.ps[p].st == Running)
    && match a
       case ExitStart(_) => s.ps[p].pc == User && p != INIT
       case ExitLock(_) => s.ps[p].pc == ExitWant && s.wlock == NOBODY
       case ReparLook(_) => s.ps[p].pc.Repar? && s.ps[p].pc.i < |s.ps|
       case ReparDone(_) => s.ps[p].pc.Repar? && s.ps[p].pc.i >= |s.ps|
       case WakeLook(_) => InWakeup(s.ps[p].pc) && s.ps[p].pc.j < |s.ps| && (s.ps[p].pc.j == p || s.ps[s.ps[p].pc.j].plock == NOBODY)
       case WakePoke(_) => InPoke(s.ps[p].pc) && s.ps[p].pc.j < |s.ps|
       case WakeDone(_) => InWakeup(s.ps[p].pc) && s.ps[p].pc.j >= |s.ps|
       case Die(_) => s.ps[p].pc == ExitMark && s.ps[p].plock == NOBODY
       case Leave(_) => s.ps[p].pc == ExitSwitch
  }

  ghost function NextExit(s: State, a: ExitAct): (t: State)
    requires Shape(s) && MayExit(s, a)
    ensures Shape(t) && |t.ps| == |s.ps|
  {
    var p := a.p;
    var pc := s.ps[p].pc;
    match a
    case ExitStart(_) => Goto(s, p, ExitWant)
    case ExitLock(_) => Goto(s, p, Repar(0)).(wlock := p)
    case ReparLook(_) =>
      if s.ps[pc.i].parent == p then
        var t := Goto(s, p, ReparWake(pc.i, 0));
        t.(ps := t.ps[pc.i := t.ps[pc.i].(parent := INIT)])
      else Goto(s, p, Repar(pc.i + 1))
    case ReparDone(_) => Goto(s, p, ExitWake(0))
    case WakeLook(_) =>
      if pc.j == p then Goto(s, p, WithWake(pc, pc.j + 1))
      else
        var t := Goto(s, p, WithPoke(pc, pc.j));
        t.(ps := t.ps[pc.j := t.ps[pc.j].(plock := p)])
    case WakePoke(_) =>
      var t := Goto(s, p, WithWake(pc, pc.j + 1));
      var hit := s.ps[pc.j].st == Sleeping && s.ps[pc.j].chan == WakeChan(s, p);
      t.(ps := t.ps[pc.j := t.ps[pc.j].(plock := NOBODY, st := if hit then Runnable else s.ps[pc.j].st)])
    case WakeDone(_) => Goto(s, p, if pc.ReparWake? then Repar(pc.i + 1) else ExitMark)
    case Die(_) => s.(ps := s.ps[p := s.ps[p].(pc := ExitSwitch, st := Zombie, plock := p)], wlock := NOBODY)
    case Leave(_) => s.(ps := s.ps[p := s.ps[p].(pc := Dead, plock := NOBODY)])
  }

  // ---------- kwait ----------

  ghost predicate MayWait(s: State, a: WaitAct)
    requires Shape(s)
  {
    var p := a.p;
    && p < |s.ps| && s.ps[p].st == Running
    && match a
       case WaitStart(_) => s.ps[p].pc == User
       case WaitLock(_) => s.ps[p].pc == WaitWant && s.wlock == NOBODY
       case ScanLook(_) => s.ps[p].pc.Scan? && s.ps[p].pc.i < |s.ps| && (s.ps[s.ps[p].pc.i].parent == p ==> s.ps[s.ps[p].pc.i].plock == NOBODY)
       case Reap(_) => s.ps[p].pc.Check? && s.ps[p].pc.i < |s.ps| && s.ps[s.ps[p].pc.i].st == Zombie
       case CopyFailed(_) => s.ps[p].pc.Check? && s.ps[p].pc.i < |s.ps| && s.ps[s.ps[p].pc.i].st == Zombie
       case NotYet(_) => s.ps[p].pc.Check? && s.ps[p].pc.i < |s.ps| && s.ps[s.ps[p].pc.i].st != Zombie
       // no children, or killed
       case GiveUp(_) => s.ps[p].pc.Scan? && s.ps[p].pc.i >= |s.ps|
  }

  ghost function NextWait(s: State, a: WaitAct): (t: State)
    requires Shape(s) && MayWait(s, a)
    ensures Shape(t) && |t.ps| == |s.ps|
  {
    var p := a.p;
    var pc := s.ps[p].pc;
    match a
    case WaitStart(_) => Goto(s, p, WaitWant)
    case WaitLock(_) => Goto(s, p, Scan(0, false)).(wlock := p)
    case ScanLook(_) =>
      if s.ps[pc.i].parent == p then
        var t := Goto(s, p, Check(pc.i));
        t.(ps := t.ps[pc.i := t.ps[pc.i].(plock := p)])
      else Goto(s, p, Scan(pc.i + 1, pc.have))
    case Reap(_) =>
      var t := Goto(s, p, User);
      t.(ps := t.ps[pc.i := t.ps[pc.i].(pc := None, st := Unused, parent := NOBODY, plock := NOBODY)],
         wlock := NOBODY, reaped := s.reaped + {s.ps[pc.i].pid})
    case CopyFailed(_) =>
      var t := Goto(s, p, User);
      t.(ps := t.ps[pc.i := t.ps[pc.i].(plock := NOBODY)], wlock := NOBODY)
    case NotYet(_) =>
      var t := Goto(s, p, Scan(pc.i + 1, true));
      t.(ps := t.ps[pc.i := t.ps[pc.i].(plock := NOBODY)])
    case GiveUp(_) => Goto(s, p, User).(wlock := NOBODY)
  }

  // ---------- sleep(p, &wait_lock) ----------

  ghost predicate MaySleep(s: State, a: SleepAct)
    requires Shape(s)
  {
    var p := a.p;
    && p < |s.ps| && (a.SwitchOut? || a.Schedule? || s.ps[p].st == Running)
    && match a
       case Sleep(_) => s.ps[p].pc.Scan? && s.ps[p].pc.i >= |s.ps| && s.ps[p].pc.have
       case LockSelf(_) => s.ps[p].pc == WSelf && s.ps[p].plock == NOBODY
       case ReleaseWait(_) => s.ps[p].pc == WRel
       case Mark(_) => s.ps[p].pc == WMark
       case SwitchOut(_) => s.ps[p].pc == WSwitch
       case Schedule(_) => s.ps[p].pc == WAsleep && s.ps[p].st == Runnable && s.ps[p].plock == NOBODY
       case Tidy(_) => s.ps[p].pc == WAwake
  }

  ghost function NextSleep(s: State, a: SleepAct): (t: State)
    requires Shape(s) && MaySleep(s, a)
    ensures Shape(t) && |t.ps| == |s.ps|
  {
    var p := a.p;
    match a
    case Sleep(_) => Goto(s, p, WSelf)
    case LockSelf(_) => s.(ps := s.ps[p := s.ps[p].(pc := WRel, plock := p)])
    case ReleaseWait(_) => Goto(s, p, WMark).(wlock := NOBODY)
    case Mark(_) => s.(ps := s.ps[p := s.ps[p].(pc := WSwitch, chan := p, st := Sleeping)])
    case SwitchOut(_) => s.(ps := s.ps[p := s.ps[p].(pc := WAsleep, plock := NOBODY)])
    case Schedule(_) => s.(ps := s.ps[p := s.ps[p].(pc := WAwake, plock := p, st := Running)])
    case Tidy(_) => s.(ps := s.ps[p := s.ps[p].(pc := WaitWant, plock := NOBODY, chan := NOBODY)])
  }

  ghost predicate Enabled(s: State, a: Action)
    requires Shape(s)
  {
    match a
    case Forks(f) => MayFork(s, f)
    case Exits(e) => MayExit(s, e)
    case Waits(w) => MayWait(s, w)
    case Sleeps(z) => MaySleep(s, z)
  }

  ghost function Next(s: State, a: Action): (t: State)
    requires Shape(s) && Enabled(s, a)
    ensures Shape(t) && |t.ps| == |s.ps|
  {
    match a
    case Forks(f) => NextFork(s, f)
    case Exits(e) => NextExit(s, e)
    case Waits(w) => NextWait(s, w)
    case Sleeps(z) => NextSleep(s, z)
  }

  // ---------- the invariant ----------

  predicate HoldsWait(pc: Pc) {
    pc.Repar? || InWakeup(pc) || InPoke(pc) || pc.ExitMark? || pc.Scan? || pc.Check? || pc.WSelf? || pc.WRel?
  }

  predicate Leaving(pc: Pc) {
    pc.ExitWant? || pc.Repar? || InWakeup(pc) || InPoke(pc) || pc.ExitMark?
  }

  predicate Making(pc: Pc) {
    pc.ForkHave? || pc.ForkLink? || pc.ForkReady?
  }

  /** Status, channel and own lock at each point of the code. */
  predicate Good(x: Slot, p: nat, wlock: int) {
    && (HoldsWait(x.pc) <==> wlock == p)
    && (if x.pc.None? then x.st == Unused || x.st == Used
        else if x.pc.Dead? || x.pc.ExitSwitch? then x.st == Zombie
        else if x.pc.User? then Alive(x.st)
        else if x.pc.WSwitch? then x.st == Sleeping
        else if x.pc.WAsleep? then x.st == Sleeping || x.st == Runnable
        else x.st == Running)
    && (x.pc.WRel? || x.pc.WMark? || x.pc.WSwitch? || x.pc.WAwake? || x.pc.ExitSwitch? ==> x.plock == p)
    && (if x.pc.WSwitch? || x.pc.WAsleep? || x.pc.WAwake? then x.chan == p else !(x.st == Sleeping && x.chan == p))
  }

  predicate GoodAt(s: State, p: nat)
    requires p < |s.ps|
  {
    Good(s.ps[p], p, s.wlock)
  }

  /** The slot whose lock a process holds, other than its own. */
  predicate Grips(pc: Pc, k: nat) {
    (InPoke(pc) && pc.j == k) || (pc.Check? && pc.i == k) || (pc.ForkHave? && pc.c == k)
  }

  predicate Held(s: State, p: nat, k: nat)
    requires p < |s.ps| && k < |s.ps|
  {
    Grips(s.ps[p].pc, k) ==> k != p && s.ps[k].plock == p
  }

  /** A slot being filled in belongs to the one process that is filling it in. */
  predicate Made(s: State, p: nat)
    requires p < |s.ps|
  {
    var pc := s.ps[p].pc;
    Making(pc) ==>
      && pc.c < |s.ps| && pc.c != p && s.ps[pc.c].st == Used && s.ps[pc.c].maker == p
      && s.ps[pc.c].parent == if pc.ForkReady? then p else NOBODY
  }

  /** Every process but init has a living parent. */
  predicate Parented(s: State, q: nat)
    requires q < |s.ps|
  {
    && (s.ps[q].st == Unused || q == INIT ==> s.ps[q].parent == NOBODY)
    && (s.ps[q].st != Unused && s.ps[q].st != Used && q != INIT ==>
          0 <= s.ps[q].parent < |s.ps| && s.ps[q].parent != q && Alive(s.ps[s.ps[q].parent].st))
    && (s.ps[q].st == Used && s.ps[q].parent != NOBODY ==> 0 <= s.ps[q].parent < |s.ps| && s.ps[s.ps[q].parent].pc == ForkReady(q))
  }

  /** What an exiting or waiting process has already established about slot `q`. */
  predicate Progress(s: State, p: nat, q: nat)
    requires p < |s.ps| && q < |s.ps|
  {
    var pc := s.ps[p].pc;
    && (Leaving(pc) ==> p != INIT)
    && (pc.Repar? && q < pc.i ==> s.ps[q].parent != p)
    && ((pc.ReparWake? || pc.ReparPoke?) && q <= pc.i ==> s.ps[q].parent != p)
    && (pc.ExitWake? || pc.ExitPoke? || pc.ExitMark? ==> s.ps[q].parent != p)
    && ((pc.Scan? || pc.Check?) && q < pc.i && s.ps[q].st == Zombie ==> s.ps[q].parent != p)
    && (pc.WSelf? || pc.WRel? ==> s.ps[q].st == Zombie ==> s.ps[q].parent != p)
  }

  /** `y` is asleep in kwait, or has released wait_lock on its way there. */
  predicate Waiting(s: State, y: nat)
    requires y < |s.ps|
  {
    s.ps[y].pc.WMark? || s.ps[y].pc.WSwitch? || (s.ps[y].pc.WAsleep? && s.ps[y].st == Sleeping)
  }

  /** A waiting process is about to be woken by the holder of wait_lock. */
  predicate Coming(s: State, y: nat)
    requires y < |s.ps|
  {
    0 <= s.wlock < |s.ps| && s.wlock != y &&
    (var pc := s.ps[s.wlock].pc; (pc.ReparWake? || pc.ReparPoke?) && y == INIT && pc.j <= y)
  }

  /** No process waits while it has a zombie child, unless it is about to be woken. */
  predicate Reported(s: State, y: nat, q: nat)
    requires y < |s.ps| && q < |s.ps|
  {
    Waiting(s, y) && s.ps[q].parent == y && s.ps[q].st == Zombie ==> Coming(s, y)
  }

  /** A dying process has woken its parent, or is about to. */
  predicate Notified(s: State, y: nat, q: nat)
    requires y < |s.ps| && q < |s.ps|
  {
    var pc := s.ps[q].pc;
    Waiting(s, y) && s.ps[q].parent == y ==> !pc.ExitMark? && (pc.ExitWake? || pc.ExitPoke? ==> pc.j <= y)
  }

  /** Pids in use are distinct and none of them has been returned by kwait. */
  predicate Fresh(s: State, p: nat, q: nat)
    requires p < |s.ps| && q < |s.ps|
  {
    s.ps[p].st != Unused ==> s.ps[p].pid < s.nextpid && s.ps[p].pid !in s.reaped && (q != p && s.ps[q].st != Unused ==> s.ps[q].pid != s.ps[p].pid)
  }

  ghost predicate Inv(s: State) {
    && Shape(s) && Alive(s.ps[INIT].st)
    && (forall p: nat :: p < |s.ps| ==> GoodAt(s, p) && Made(s, p) && Parented(s, p))
    && (forall p: nat, q: nat :: p < |s.ps| && q < |s.ps| ==> Held(s, p, q) && Progress(s, p, q))
    && (forall p: nat, q: nat :: p < |s.ps| && q < |s.ps| ==> Reported(s, p, q) && Notified(s, p, q))
    && (forall p: nat, q: nat :: p < |s.ps| && q < |s.ps| ==> Fresh(s, p, q))
    && PastPids(s)
  }

  ghost predicate PastPids(s: State) {
    forall n :: n in s.reaped ==> n < s.nextpid
  }

  /** Steps before a fork has its child's slot; each kind of step is taken in two groups. */
  predicate Begins(a: ForkAct) {
    a.Elsewhere? || a.Kill? || a.Pick?
  }

  /** Steps of the `wakeup` loops. */
  predicate Wakes(a: ExitAct) {
    a.WakeLook? || a.WakePoke? || a.WakeDone?
  }

  /** Steps of the scan that leave the child alone. */
  predicate Looks(a: WaitAct) {
    a.WaitStart? || a.WaitLock? || a.ScanLook? || a.GiveUp?
  }

  lemma GoodFork(s: State, a: ForkAct, p: nat)
    requires Shape(s) && MayFork(s, a) && p < |s.ps| && GoodAt(s, a.p) && GoodAt(s, p) && Made(s, a.p)
        && Held(s, a.p, p)
    ensures GoodAt(NextFork(s, a), p)
  {
  }

  lemma HeldFork(s: State, a: ForkAct, p: nat, k: nat)
    requires Shape(s) && MayFork(s, a) && p < |s.ps| && k < |s.ps| && Held(s, p, k) && Held(s, a.p, k)
        && GoodAt(s, a.p) && GoodAt(s, k) && Made(s, a.p) && Parented(s, k)
    ensures Held(NextFork(s, a), p, k)
  {
  }

  lemma MadeForkBegin(s: State, a: ForkAct, p: nat)
    requires Shape(s) && MayFork(s, a) && p < |s.ps| && GoodAt(s, p) && Made(s, p) && GoodAt(s, a.p) && Made(s, a.p) && (a.Pick? ==> Parented(s, a.c))
    requires Begins(a)
    ensures Made(NextFork(s, a), p)
  {
  }

  lemma MadeForkFinish(s: State, a: ForkAct, p: nat)
    requires Shape(s) && MayFork(s, a) && p < |s.ps| && GoodAt(s, p) && Made(s, p) && GoodAt(s, a.p) && Made(s, a.p) && (a.Pick? ==> Parented(s, a.c))
    requires !Begins(a)
    ensures Made(NextFork(s, a), p)
  {
  }

  lemma MadeFork(s: State, a: ForkAct, p: nat)
    requires Shape(s) && MayFork(s, a) && p < |s.ps| && GoodAt(s, p) && Made(s, p) && GoodAt(s, a.p) && Made(s, a.p) && (a.Pick? ==> Parented(s, a.c))
    ensures Made(NextFork(s, a), p)
  {
    hide MayFork, NextFork, Begins, GoodAt, Made, Held, Parented, Progress, Reported, Notified;
    if Begins(a) { MadeForkBegin(s, a, p); } else { MadeForkFinish(s, a, p); }
  }

  lemma ParentedFork(s: State, a: ForkAct, q: nat)
    requires Shape(s) && MayFork(s, a) && q < |s.ps| && GoodAt(s, q) && GoodAt(s, a.p) && Made(s, a.p)
        && Parented(s, q) && Progress(s, a.p, q)
    requires Alive(s.ps[INIT].st) && (0 <= s.ps[q].parent < |s.ps| ==> GoodAt(s, s.ps[q].parent))
    ensures Parented(NextFork(s, a), q)
  {
  }

  lemma ProgressForkBegin(s: State, a: ForkAct, p: nat, q: nat)
    requires Shape(s) && MayFork(s, a) && p < |s.ps| && q < |s.ps| && GoodAt(s, p) && GoodAt(s, a.p) && Made(s, a.p)
        && Parented(s, q) && Progress(s, p, q)
    requires Begins(a)
    ensures Progress(NextFork(s, a), p, q)
  {
  }

  lemma ProgressForkFinish(s: State, a: ForkAct, p: nat, q: nat)
    requires Shape(s) && MayFork(s, a) && p < |s.ps| && q < |s.ps| && GoodAt(s, p) && GoodAt(s, a.p) && Made(s, a.p)
        && Parented(s, q) && Progress(s, p, q)
    requires !Begins(a)
    ensures Progress(NextFork(s, a), p, q)
  {
  }

  lemma ProgressFork(s: State, a: ForkAct, p: nat, q: nat)
    requires Shape(s) && MayFork(s, a) && p < |s.ps| && q < |s.ps| && GoodAt(s, p) && GoodAt(s, a.p) && Made(s, a.p)
        && Parented(s, q) && Progress(s, p, q)
    ensures Progress(NextFork(s, a), p, q)
  {
    hide MayFork, NextFork, Begins, GoodAt, Made, Held, Parented, Progress, Reported, Notified;
    if Begins(a) { ProgressForkBegin(s, a, p, q); } else { ProgressForkFinish(s, a, p, q); }
  }

  lemma ReportedForkBegin(s: State, a: ForkAct, y: nat, q: nat)
    requires Shape(s) && MayFork(s, a) && y < |s.ps| && q < |s.ps| && GoodAt(s, y) && GoodAt(s, q) && GoodAt(s, a.p)
        && Made(s, a.p) && Held(s, a.p, y)
    requires Parented(s, q) && Progress(s, y, q) && Reported(s, y, q) && Notified(s, y, q) && (0 <= s.wlock < |s.ps| ==> GoodAt(s, s.wlock))
    requires Begins(a)
    ensures Reported(NextFork(s, a), y, q)
  {
  }

  lemma ReportedForkFinish(s: State, a: ForkAct, y: nat, q: nat)
    requires Shape(s) && MayFork(s, a) && y < |s.ps| && q < |s.ps| && GoodAt(s, y) && GoodAt(s, q) && GoodAt(s, a.p)
        && Made(s, a.p) && Held(s, a.p, y)
    requires Parented(s, q) && Progress(s, y, q) && Reported(s, y, q) && Notified(s, y, q) && (0 <= s.wlock < |s.ps| ==> GoodAt(s, s.wlock))
    requires !Begins(a)
    ensures Reported(NextFork(s, a), y, q)
  {
  }

  lemma ReportedFork(s: State, a: ForkAct, y: nat, q: nat)
    requires Shape(s) && MayFork(s, a) && y < |s.ps| && q < |s.ps| && GoodAt(s, y) && GoodAt(s, q) && GoodAt(s, a.p)
        && Made(s, a.p) && Held(s, a.p, y)
    requires Parented(s, q) && Progress(s, y, q) && Reported(s, y, q) && Notified(s, y, q) && (0 <= s.wlock < |s.ps| ==> GoodAt(s, s.wlock))
    ensures Reported(NextFork(s, a), y, q)
  {
    hide MayFork, NextFork, Begins, GoodAt, Made, Held, Parented, Progress, Reported, Notified;
    if Begins(a) { ReportedForkBegin(s, a, y, q); } else { ReportedForkFinish(s, a, y, q); }
  }

  lemma NotifiedFork(s: State, a: ForkAct, y: nat, q: nat)
    requires Shape(s) && MayFork(s, a) && y < |s.ps| && q < |s.ps| && GoodAt(s, y) && GoodAt(s, q) && GoodAt(s, a.p)
        && Made(s, a.p) && Held(s, a.p, y)
    requires Parented(s, q) && Notified(s, y, q)
    ensures Notified(NextFork(s, a), y, q)
  {
  }

  lemma GoodExit(s: State, a: ExitAct, p: nat)
    requires Shape(s) && MayExit(s, a) && p < |s.ps| && GoodAt(s, a.p) && GoodAt(s, p) && Made(s, a.p)
        && Held(s, a.p, p)
    ensures GoodAt(NextExit(s, a), p)
  {
  }

  lemma HeldExitWake(s: State, a: ExitAct, p: nat, k: nat)
    requires Shape(s) && MayExit(s, a) && p < |s.ps| && k < |s.ps| && Held(s, p, k) && Held(s, a.p, k)
        && GoodAt(s, a.p) && GoodAt(s, k) && Made(s, a.p) && Parented(s, k)
    requires Wakes(a)
    ensures Held(NextExit(s, a), p, k)
  {
  }

  lemma HeldExitRest(s: State, a: ExitAct, p: nat, k: nat)
    requires Shape(s) && MayExit(s, a) && p < |s.ps| && k < |s.ps| && Held(s, p, k) && Held(s, a.p, k)
        && GoodAt(s, a.p) && GoodAt(s, k) && Made(s, a.p) && Parented(s, k)
    requires !Wakes(a)
    ensures Held(NextExit(s, a), p, k)
  {
  }

  lemma HeldExit(s: State, a: ExitAct, p: nat, k: nat)
    requires Shape(s) && MayExit(s, a) && p < |s.ps| && k < |s.ps| && Held(s, p, k) && Held(s, a.p, k)
        && GoodAt(s, a.p) && GoodAt(s, k) && Made(s, a.p) && Parented(s, k)
    ensures Held(NextExit(s, a), p, k)
  {
    hide MayExit, NextExit, Wakes, GoodAt, Made, Held, Parented, Progress, Reported, Notified;
    if Wakes(a) { HeldExitWake(s, a, p, k); } else { HeldExitRest(s, a, p, k); }
  }

  lemma MadeExitWake(s: State, a: ExitAct, p: nat)
    requires Shape(s) && MayExit(s, a) && p < |s.ps| && GoodAt(s, p) && Made(s, p) && GoodAt(s, a.p) && Made(s, a.p)
    requires Wakes(a)
    ensures Made(NextExit(s, a), p)
  {
  }

  lemma MadeExitRest(s: State, a: ExitAct, p: nat)
    requires Shape(s) && MayExit(s, a) && p < |s.ps| && GoodAt(s, p) && Made(s, p) && GoodAt(s, a.p) && Made(s, a.p)
    requires !Wakes(a)
    ensures Made(NextExit(s, a), p)
  {
  }

  lemma MadeExit(s: State, a: ExitAct, p: nat)
    requires Shape(s) && MayExit(s, a) && p < |s.ps| && GoodAt(s, p) && Made(s, p) && GoodAt(s, a.p) && Made(s, a.p)
    ensures Made(NextExit(s, a), p)
  {
    hide MayExit, NextExit, Wakes, GoodAt, Made, Held, Parented, Progress, Reported, Notified;
    if Wakes(a) { MadeExitWake(s, a, p); } else { MadeExitRest(s, a, p); }
  }

  lemma ParentedExit(s: State, a: ExitAct, q: nat)
    requires Shape(s) && MayExit(s, a) && q < |s.ps| && GoodAt(s, q) && GoodAt(s, a.p) && Made(s, a.p)
        && Parented(s, q) && Progress(s, a.p, q)
    requires Alive(s.ps[INIT].st) && (0 <= s.ps[q].parent < |s.ps| ==> GoodAt(s, s.ps[q].parent))
    ensures Parented(NextExit(s, a), q)
  {
  }

  lemma ProgressExitWake(s: State, a: ExitAct, p: nat, q: nat)
    requires Shape(s) && MayExit(s, a) && p < |s.ps| && q < |s.ps| && GoodAt(s, p) && GoodAt(s, a.p) && Made(s, a.p)
        && Parented(s, q) && Progress(s, p, q)
    requires Wakes(a)
    ensures Progress(NextExit(s, a), p, q)
  {
  }

  lemma ProgressExitRest(s: State, a: ExitAct, p: nat, q: nat)
    requires Shape(s) && MayExit(s, a) && p < |s.ps| && q < |s.ps| && GoodAt(s, p) && GoodAt(s, a.p) && Made(s, a.p)
        && Parented(s, q) && Progress(s, p, q)
    requires !Wakes(a)
    ensures Progress(NextExit(s, a), p, q)
  {
  }

  lemma ProgressExit(s: State, a: ExitAct, p: nat, q: nat)
    requires Shape(s) && MayExit(s, a) && p < |s.ps| && q < |s.ps| && GoodAt(s, p) && GoodAt(s, a.p) && Made(s, a.p)
        && Parented(s, q) && Progress(s, p, q)
    ensures Progress(NextExit(s, a), p, q)
  {
    hide MayExit, NextExit, Wakes, GoodAt, Made, Held, Parented, Progress, Reported, Notified;
    if Wakes(a) { ProgressExitWake(s, a, p, q); } else { ProgressExitRest(s, a, p, q); }
  }

  lemma ReportedExitWake(s: State, a: ExitAct, y: nat, q: nat)
    requires Shape(s) && MayExit(s, a) && y < |s.ps| && q < |s.ps| && GoodAt(s, y) && GoodAt(s, a.p) && Held(s, a.p, y)
    requires Reported(s, y, q) && Notified(s, y, q) && (0 <= s.wlock < |s.ps| ==> GoodAt(s, s.wlock))
    requires Wakes(a)
    ensures Reported(NextExit(s, a), y, q)
  {
  }

  lemma ReportedExitRest(s: State, a: ExitAct, y: nat, q: nat)
    requires Shape(s) && MayExit(s, a) && y < |s.ps| && q < |s.ps| && GoodAt(s, y) && GoodAt(s, a.p) && Held(s, a.p, y)
    requires Reported(s, y, q) && Notified(s, y, q) && (0 <= s.wlock < |s.ps| ==> GoodAt(s, s.wlock))
    requires !Wakes(a)
    ensures Reported(NextExit(s, a), y, q)
  {
  }

  lemma ReportedExit(s: State, a: ExitAct, y: nat, q: nat)
    requires Shape(s) && MayExit(s, a) && y < |s.ps| && q < |s.ps| && GoodAt(s, y) && GoodAt(s, a.p) && Held(s, a.p, y)
    requires Reported(s, y, q) && Notified(s, y, q) && (0 <= s.wlock < |s.ps| ==> GoodAt(s, s.wlock))
    ensures Reported(NextExit(s, a), y, q)
  {
    hide MayExit, NextExit, Wakes, GoodAt, Made, Held, Parented, Progress, Reported, Notified;
    if Wakes(a) { ReportedExitWake(s, a, y, q); } else { ReportedExitRest(s, a, y, q); }
  }

  lemma NotifiedExitWake(s: State, a: ExitAct, y: nat, q: nat)
    requires Shape(s) && MayExit(s, a) && y < |s.ps| && q < |s.ps| && GoodAt(s, y) && GoodAt(s, q) && GoodAt(s, a.p)
        && Made(s, a.p) && Held(s, a.p, y)
    requires Parented(s, q) && Notified(s, y, q)
    requires Wakes(a)
    ensures Notified(NextExit(s, a), y, q)
  {
  }

  lemma NotifiedExitRest(s: State, a: ExitAct, y: nat, q: nat)
    requires Shape(s) && MayExit(s, a) && y < |s.ps| && q < |s.ps| && GoodAt(s, y) && GoodAt(s, q) && GoodAt(s, a.p)
        && Made(s, a.p) && Held(s, a.p, y)
    requires Parented(s, q) && Notified(s, y, q)
    requires !Wakes(a)
    ensures Notified(NextExit(s, a), y, q)
  {
  }

  lemma NotifiedExit(s: State, a: ExitAct, y: nat, q: nat)
    requires Shape(s) && MayExit(s, a) && y < |s.ps| && q < |s.ps| && GoodAt(s, y) && GoodAt(s, q) && GoodAt(s, a.p)
        && Made(s, a.p) && Held(s, a.p, y)
    requires Parented(s, q) && Notified(s, y, q)
    ensures Notified(NextExit(s, a), y, q)
  {
    hide MayExit, NextExit, Wakes, GoodAt, Made, Held, Parented, Progress, Reported, Notified;
    if Wakes(a) { NotifiedExitWake(s, a, y, q); } else { NotifiedExitRest(s, a, y, q); }
  }

  lemma GoodWait(s: State, a: WaitAct, p: nat)
    requires Shape(s) && MayWait(s, a) && p < |s.ps| && GoodAt(s, a.p) && GoodAt(s, p) && Made(s, a.p)
        && Held(s, a.p, p)
    ensures GoodAt(NextWait(s, a), p)
  {
  }

  lemma HeldWait(s: State, a: WaitAct, p: nat, k: nat)
    requires Shape(s) && MayWait(s, a) && p < |s.ps| && k < |s.ps| && Held(s, p, k) && Held(s, a.p, k)
        && GoodAt(s, a.p) && GoodAt(s, k) && Made(s, a.p) && Parented(s, k)
    ensures Held(NextWait(s, a), p, k)
  {
  }

  lemma MadeWaitLook(s: State, a: WaitAct, p: nat)
    requires Shape(s) && MayWait(s, a) && p < |s.ps| && GoodAt(s, p) && Made(s, p) && GoodAt(s, a.p) && Made(s, a.p)
    requires Looks(a)
    ensures Made(NextWait(s, a), p)
  {
  }

  lemma MadeWaitRest(s: State, a: WaitAct, p: nat)
    requires Shape(s) && MayWait(s, a) && p < |s.ps| && GoodAt(s, p) && Made(s, p) && GoodAt(s, a.p) && Made(s, a.p)
    requires !Looks(a)
    ensures Made(NextWait(s, a), p)
  {
  }

  lemma MadeWait(s: State, a: WaitAct, p: nat)
    requires Shape(s) && MayWait(s, a) && p < |s.ps| && GoodAt(s, p) && Made(s, p) && GoodAt(s, a.p) && Made(s, a.p)
    ensures Made(NextWait(s, a), p)
  {
    hide MayWait, NextWait, Looks, GoodAt, Made, Held, Parented, Progress, Reported, Notified;
    if Looks(a) { MadeWaitLook(s, a, p); } else { MadeWaitRest(s, a, p); }
  }

  lemma ParentedWait(s: State, a: WaitAct, q: nat)
    requires Shape(s) && MayWait(s, a) && q < |s.ps| && GoodAt(s, q) && GoodAt(s, a.p) && Made(s, a.p)
        && Parented(s, q) && Progress(s, a.p, q)
    requires Alive(s.ps[INIT].st) && (0 <= s.ps[q].parent < |s.ps| ==> GoodAt(s, s.ps[q].parent))
    ensures Parented(NextWait(s, a), q)
  {
  }

  lemma ProgressWaitLook(s: State, a: WaitAct, p: nat, q: nat)
    requires Shape(s) && MayWait(s, a) && p < |s.ps| && q < |s.ps| && GoodAt(s, p) && GoodAt(s, a.p) && Made(s, a.p)
        && Parented(s, q) && Progress(s, p, q)
    requires Looks(a)
    ensures Progress(NextWait(s, a), p, q)
  {
  }

  lemma ProgressWaitRest(s: State, a: WaitAct, p: nat, q: nat)
    requires Shape(s) && MayWait(s, a) && p < |s.ps| && q < |s.ps| && GoodAt(s, p) && GoodAt(s, a.p) && Made(s, a.p)
        && Parented(s, q) && Progress(s, p, q)
    requires !Looks(a)
    ensures Progress(NextWait(s, a), p, q)
  {
  }

  lemma ProgressWait(s: State, a: WaitAct, p: nat, q: nat)
    requires Shape(s) && MayWait(s, a) && p < |s.ps| && q < |s.ps| && GoodAt(s, p) && GoodAt(s, a.p) && Made(s, a.p)
        && Parented(s, q) && Progress(s, p, q)
    ensures Progress(NextWait(s, a), p, q)
  {
    hide MayWait, NextWait, Looks, GoodAt, Made, Held, Parented, Progress, Reported, Notified;
    if Looks(a) { ProgressWaitLook(s, a, p, q); } else { ProgressWaitRest(s, a, p, q); }
  }

  lemma ReportedWaitLook(s: State, a: WaitAct, y: nat, q: nat)
    requires Shape(s) && MayWait(s, a) && y < |s.ps| && q < |s.ps| && GoodAt(s, y) && GoodAt(s, q) && GoodAt(s, a.p)
        && Made(s, a.p) && Held(s, a.p, y)
    requires Parented(s, q) && Progress(s, y, q) && Reported(s, y, q) && Notified(s, y, q) && (0 <= s.wlock < |s.ps| ==> GoodAt(s, s.wlock))
    requires Looks(a)
    ensures Reported(NextWait(s, a), y, q)
  {
  }

  lemma ReportedWaitRest(s: State, a: WaitAct, y: nat, q: nat)
    requires Shape(s) && MayWait(s, a) && y < |s.ps| && q < |s.ps| && GoodAt(s, y) && GoodAt(s, q) && GoodAt(s, a.p)
        && Made(s, a.p) && Held(s, a.p, y)
    requires Parented(s, q) && Progress(s, y, q) && Reported(s, y, q) && Notified(s, y, q) && (0 <= s.wlock < |s.ps| ==> GoodAt(s, s.wlock))
    requires !Looks(a)
    ensures Reported(NextWait(s, a), y, q)
  {
  }

  lemma ReportedWait(s: State, a: WaitAct, y: nat, q: nat)
    requires Shape(s) && MayWait(s, a) && y < |s.ps| && q < |s.ps| && GoodAt(s, y) && GoodAt(s, q) && GoodAt(s, a.p)
        && Made(s, a.p) && Held(s, a.p, y)
    requires Parented(s, q) && Progress(s, y, q) && Reported(s, y, q) && Notified(s, y, q) && (0 <= s.wlock < |s.ps| ==> GoodAt(s, s.wlock))
    ensures Reported(NextWait(s, a), y, q)
  {
    hide MayWait, NextWait, Looks, GoodAt, Made, Held, Parented, Progress, Reported, Notified;
    if Looks(a) { ReportedWaitLook(s, a, y, q); } else { ReportedWaitRest(s, a, y, q); }
  }

  lemma NotifiedWait(s: State, a: WaitAct, y: nat, q: nat)
    requires Shape(s) && MayWait(s, a) && y < |s.ps| && q < |s.ps| && GoodAt(s, y) && GoodAt(s, q) && GoodAt(s, a.p)
        && Made(s, a.p) && Held(s, a.p, y)
    requires Parented(s, q) && Notified(s, y, q)
    ensures Notified(NextWait(s, a), y, q)
  {
  }

  lemma GoodSleep(s: State, a: SleepAct, p: nat)
    requires Shape(s) && MaySleep(s, a) && p < |s.ps| && GoodAt(s, a.p) && GoodAt(s, p) && Made(s, a.p)
        && Held(s, a.p, p)
    ensures GoodAt(NextSleep(s, a), p)
  {
  }

  lemma HeldSleep(s: State, a: SleepAct, p: nat, k: nat)
    requires Shape(s) && MaySleep(s, a) && p < |s.ps| && k < |s.ps| && Held(s, p, k) && Held(s, a.p, k)
        && GoodAt(s, a.p) && GoodAt(s, k) && Made(s, a.p) && Parented(s, k)
    ensures Held(NextSleep(s, a), p, k)
  {
  }

  lemma MadeSleep(s: State, a: SleepAct, p: nat)
    requires Shape(s) && MaySleep(s, a) && p < |s.ps| && GoodAt(s, p) && Made(s, p) && GoodAt(s, a.p) && Made(s, a.p)
    ensures Made(NextSleep(s, a), p)
  {
  }

  lemma ParentedSleep(s: State, a: SleepAct, q: nat)
    requires Shape(s) && MaySleep(s, a) && q < |s.ps| && GoodAt(s, q) && GoodAt(s, a.p) && Made(s, a.p)
        && Parented(s, q) && Progress(s, a.p, q)
    requires Alive(s.ps[INIT].st) && (0 <= s.ps[q].parent < |s.ps| ==> GoodAt(s, s.ps[q].parent))
    ensures Parented(NextSleep(s, a), q)
  {
  }

  lemma ProgressSleep(s: State, a: SleepAct, p: nat, q: nat)
    requires Shape(s) && MaySleep(s, a) && p < |s.ps| && q < |s.ps| && GoodAt(s, p) && GoodAt(s, a.p) && Made(s, a.p)
        && Parented(s, q) && Progress(s, p, q)
    ensures Progress(NextSleep(s, a), p, q)
  {
  }

  lemma ReportedSleep(s: State, a: SleepAct, y: nat, q: nat)
    requires Shape(s) && MaySleep(s, a) && y < |s.ps| && q < |s.ps| && GoodAt(s, y) && GoodAt(s, q) && GoodAt(s, a.p)
        && Made(s, a.p) && Held(s, a.p, y)
    requires Parented(s, q) && Progress(s, y, q) && Reported(s, y, q) && Notified(s, y, q) && (0 <= s.wlock < |s.ps| ==> GoodAt(s, s.wlock))
    ensures Reported(NextSleep(s, a), y, q)
  {
  }

  lemma NotifiedSleep(s: State, a: SleepAct, y: nat, q: nat)
    requires Shape(s) && MaySleep(s, a) && y < |s.ps| && q < |s.ps| && GoodAt(s, y) && GoodAt(s, q) && GoodAt(s, a.p)
        && Made(s, a.p) && Held(s, a.p, y)
    requires Parented(s, q) && Notified(s, y, q)
    ensures Notified(NextSleep(s, a), y, q)
  {
  }

  lemma FreshFork(s: State, a: ForkAct, p: nat, q: nat)
    requires Shape(s) && MayFork(s, a) && p < |s.ps| && q < |s.ps| && Fresh(s, p, q) && Fresh(s, q, p) && PastPids(s)
        && GoodAt(s, a.p) && Made(s, a.p)
    ensures Fresh(NextFork(s, a), p, q)
  {
  }

  lemma FreshExit(s: State, a: ExitAct, p: nat, q: nat)
    requires Shape(s) && MayExit(s, a) && p < |s.ps| && q < |s.ps| && Fresh(s, p, q) && Fresh(s, q, p) && PastPids(s)
        && GoodAt(s, a.p) && Made(s, a.p)
    ensures Fresh(NextExit(s, a), p, q)
  {
  }

  lemma FreshWait(s: State, a: WaitAct, p: nat, q: nat)
    requires Shape(s) && MayWait(s, a) && p < |s.ps| && q < |s.ps| && Fresh(s, p, q) && Fresh(s, q, p) && PastPids(s)
    requires GoodAt(s, a.p) && Made(s, a.p) && (a.Reap? ==> Fresh(s, p, s.ps[a.p].pc.i))
    ensures Fresh(NextWait(s, a), p, q)
  {
  }

  lemma FreshSleep(s: State, a: SleepAct, p: nat, q: nat)
    requires Shape(s) && MaySleep(s, a) && p < |s.ps| && q < |s.ps| && Fresh(s, p, q) && Fresh(s, q, p)
        && PastPids(s) && GoodAt(s, a.p) && Made(s, a.p)
    ensures Fresh(NextSleep(s, a), p, q)
  {
  }

  lemma StepFork(s: State, a: ForkAct)
    requires Inv(s) && MayFork(s, a)
    ensures Inv(NextFork(s, a))
  {
    assert a.p < |s.ps| && (a.Pick? ==> a.c < |s.ps|);
    hide MayFork, NextFork, GoodAt, Made, Parented, Held, Progress, Reported, Notified, Fresh;
    var t := NextFork(s, a);
    assert GoodAt(s, a.p) && Made(s, a.p);
    forall p: nat | p < |t.ps| ensures GoodAt(t, p) && Made(t, p) && Parented(t, p) {
      assert GoodAt(s, p) && Made(s, p) && Parented(s, p) && Held(s, a.p, p) && Progress(s, a.p, p);
      GoodFork(s, a, p);
      MadeFork(s, a, p);
      ParentedFork(s, a, p);
    }
    forall p: nat, q: nat | p < |t.ps| && q < |t.ps|
      ensures Held(t, p, q) && Progress(t, p, q) && Reported(t, p, q) && Notified(t, p, q) && Fresh(t, p, q) {
      assert GoodAt(s, p) && GoodAt(s, q) && Parented(s, q) && Held(s, p, q) && Held(s, a.p, q) && Held(s, a.p, p) && Fresh(s, q, p);
      HeldFork(s, a, p, q);
      ProgressFork(s, a, p, q);
      ReportedFork(s, a, p, q);
      NotifiedFork(s, a, p, q);
      FreshFork(s, a, p, q);
    }
    RestFork(s, a);
  }

  lemma RestFork(s: State, a: ForkAct)
    requires Inv(s) && MayFork(s, a)
    ensures PastPids(NextFork(s, a)) && Alive(NextFork(s, a).ps[INIT].st)
  {
    assert GoodAt(s, a.p) && GoodAt(s, INIT) && Made(s, a.p) && Progress(s, a.p, INIT) && Held(s, a.p, INIT);
    hide Inv;
  }

  lemma StepExit(s: State, a: ExitAct)
    requires Inv(s) && MayExit(s, a)
    ensures Inv(NextExit(s, a))
  {
    assert a.p < |s.ps|;
    hide MayExit, NextExit, GoodAt, Made, Parented, Held, Progress, Reported, Notified, Fresh;
    var t := NextExit(s, a);
    assert GoodAt(s, a.p) && Made(s, a.p);
    forall p: nat | p < |t.ps| ensures GoodAt(t, p) && Made(t, p) && Parented(t, p) {
      assert GoodAt(s, p) && Made(s, p) && Parented(s, p) && Held(s, a.p, p) && Progress(s, a.p, p);
      GoodExit(s, a, p);
      MadeExit(s, a, p);
      ParentedExit(s, a, p);
    }
    forall p: nat, q: nat | p < |t.ps| && q < |t.ps|
      ensures Held(t, p, q) && Progress(t, p, q) && Reported(t, p, q) && Notified(t, p, q) && Fresh(t, p, q) {
      assert GoodAt(s, p) && GoodAt(s, q) && Parented(s, q) && Held(s, p, q) && Held(s, a.p, q) && Held(s, a.p, p) && Fresh(s, q, p);
      HeldExit(s, a, p, q);
      ProgressExit(s, a, p, q);
      ReportedExit(s, a, p, q);
      NotifiedExit(s, a, p, q);
      FreshExit(s, a, p, q);
    }
    RestExit(s, a);
  }

  lemma RestExit(s: State, a: ExitAct)
    requires Inv(s) && MayExit(s, a)
    ensures PastPids(NextExit(s, a)) && Alive(NextExit(s, a).ps[INIT].st)
  {
    assert GoodAt(s, a.p) && GoodAt(s, INIT) && Made(s, a.p) && Progress(s, a.p, INIT) && Held(s, a.p, INIT);
    hide Inv;
  }

  lemma StepWait(s: State, a: WaitAct)
    requires Inv(s) && MayWait(s, a)
    ensures Inv(NextWait(s, a))
  {
    assert a.p < |s.ps| && (a.Reap? ==> s.ps[a.p].pc.i < |s.ps|);
    hide MayWait, NextWait, GoodAt, Made, Parented, Held, Progress, Reported, Notified, Fresh;
    var t := NextWait(s, a);
    assert GoodAt(s, a.p) && Made(s, a.p);
    forall p: nat | p < |t.ps| ensures GoodAt(t, p) && Made(t, p) && Parented(t, p) {
      assert GoodAt(s, p) && Made(s, p) && Parented(s, p) && Held(s, a.p, p) && Progress(s, a.p, p);
      GoodWait(s, a, p);
      MadeWait(s, a, p);
      ParentedWait(s, a, p);
    }
    forall p: nat, q: nat | p < |t.ps| && q < |t.ps|
      ensures Held(t, p, q) && Progress(t, p, q) && Reported(t, p, q) && Notified(t, p, q) && Fresh(t, p, q) {
      assert GoodAt(s, p) && GoodAt(s, q) && Parented(s, q) && Held(s, p, q) && Held(s, a.p, q) && Held(s, a.p, p) && Fresh(s, q, p);
      HeldWait(s, a, p, q);
      ProgressWait(s, a, p, q);
      ReportedWait(s, a, p, q);
      NotifiedWait(s, a, p, q);
      FreshWait(s, a, p, q);
    }
    RestWait(s, a);
  }

  lemma RestWait(s: State, a: WaitAct)
    requires Inv(s) && MayWait(s, a)
    ensures PastPids(NextWait(s, a)) && Alive(NextWait(s, a).ps[INIT].st)
  {
    assert GoodAt(s, a.p) && GoodAt(s, INIT) && Made(s, a.p) && Progress(s, a.p, INIT) && Held(s, a.p, INIT);
    if a.Reap? { assert Fresh(s, s.ps[a.p].pc.i, 0); }
    hide Inv;
  }

  lemma StepSleep(s: State, a: SleepAct)
    requires Inv(s) && MaySleep(s, a)
    ensures Inv(NextSleep(s, a))
  {
    assert a.p < |s.ps|;
    hide MaySleep, NextSleep, GoodAt, Made, Parented, Held, Progress, Reported, Notified, Fresh;
    var t := NextSleep(s, a);
    assert GoodAt(s, a.p) && Made(s, a.p);
    forall p: nat | p < |t.ps| ensures GoodAt(t, p) && Made(t, p) && Parented(t, p) {
      assert GoodAt(s, p) && Made(s, p) && Parented(s, p) && Held(s, a.p, p) && Progress(s, a.p, p);
      GoodSleep(s, a, p);
      MadeSleep(s, a, p);
      ParentedSleep(s, a, p);
    }
    forall p: nat, q: nat | p < |t.ps| && q < |t.ps|
      ensures Held(t, p, q) && Progress(t, p, q) && Reported(t, p, q) && Notified(t, p, q) && Fresh(t, p, q) {
      assert GoodAt(s, p) && GoodAt(s, q) && Parented(s, q) && Held(s, p, q) && Held(s, a.p, q) && Held(s, a.p, p) && Fresh(s, q, p);
      HeldSleep(s, a, p, q);
      ProgressSleep(s, a, p, q);
      ReportedSleep(s, a, p, q);
      NotifiedSleep(s, a, p, q);
      FreshSleep(s, a, p, q);
    }
    RestSleep(s, a);
  }

  lemma RestSleep(s: State, a: SleepAct)
    requires Inv(s) && MaySleep(s, a)
    ensures PastPids(NextSleep(s, a)) && Alive(NextSleep(s, a).ps[INIT].st)
  {
    assert GoodAt(s, a.p) && GoodAt(s, INIT) && Made(s, a.p) && Progress(s, a.p, INIT) && Held(s, a.p, INIT);
    hide Inv;
  }

  lemma StepInv(s: State, a: Action)
    requires Inv(s) && Enabled(s, a)
    ensures Inv(Next(s, a))
  {
    hide Inv, MayFork, MayExit, MayWait, MaySleep, NextFork, NextExit, NextWait, NextSleep;
    match a
    case Forks(f) => StepFork(s, f);
    case Exits(e) => StepExit(s, e);
    case Waits(w) => StepWait(s, w);
    case Sleeps(z) => StepSleep(s, z);
  }

  // ---------- every run ----------

  /** Init runs alone. */
  ghost predicate Init(s: State) {
    && Shape(s) && s.wlock == NOBODY && s.reaped == {}
    && s.ps[INIT] == Slot(User, Running, NOBODY, NOBODY, NOBODY, 1, NOBODY) && s.nextpid == 2
    && forall p :: INIT < p < |s.ps| ==> s.ps[p] == Slot(None, Unused, NOBODY, NOBODY, NOBODY, 0, NOBODY)
  }

  ghost predicate Step(r: State, a: Action, s: State) {
    Shape(r) && Enabled(r, a) && s == Next(r, a)
  }

  ghost predicate Reaches(s: State, n: nat)
    decreases n
  {
    if n == 0 then Init(s) else exists r, a :: Reaches(r, n - 1) && Step(r, a, s)
  }

  ghost predicate Reachable(s: State) {
    exists n: nat :: Reaches(s, n)
  }

  lemma InitInv(s: State)
    requires Init(s)
    ensures Inv(s)
  {
  }

  lemma {:induction false} ReachesInv(s: State, n: nat)
    requires Reaches(s, n)
    ensures Inv(s)
    decreases n
  {
    hide Inv, Next, Enabled;
    if n == 0 {
      InitInv(s);
    } else {
      var r, a :| Reaches(r, n - 1) && Step(r, a, s);
      ReachesInv(r, n - 1);
      StepInv(r, a);
    }
  }

  /** No orphans: at every moment the parent of every process but init is alive. */
  lemma ParentAlive(s: State, q: nat)
    requires Reachable(s) && q < |s.ps| && q != INIT && (Alive(s.ps[q].st) || s.ps[q].st == Zombie)
    ensures 0 <= s.ps[q].parent < |s.ps| && Alive(s.ps[s.ps[q].parent].st)
  {
    var n: nat :| Reaches(s, n);
    ReachesInv(s, n);
    assert Parented(s, q);
  }

  /** While wait_lock is free, no process is asleep in kwait, or on its way there, with a
      zombie child. */
  lemma ZombieNoticed(s: State, y: nat, q: nat)
    requires Reachable(s) && s.wlock == NOBODY && y < |s.ps| && q < |s.ps| && s.ps[q].parent == y
        && s.ps[q].st == Zombie
    ensures !Waiting(s, y) && !(s.ps[y].st == Sleeping && s.ps[y].chan == y)
  {
    var n: nat :| Reaches(s, n);
    ReachesInv(s, n);
    assert Reported(s, y, q) && GoodAt(s, y);
  }

  /** What kwait frees is a child that has left its CPU, under a pid never returned before. */
  lemma ReapedOnce(s: State, p: nat)
    requires Reachable(s) && Shape(s) && MayWait(s, Reap(p))
    ensures var i := s.ps[p].pc.i; s.ps[i].pc == Dead && s.ps[i].plock == p && s.ps[i].pid !in s.reaped
    ensures var t := NextWait(s, Reap(p)); s.ps[s.ps[p].pc.i].pid in t.reaped && t.ps[s.ps[p].pc.i].st == Unused
  {
    var n: nat :| Reaches(s, n);
    ReachesInv(s, n);
    var i := s.ps[p].pc.i;
    assert GoodAt(s, i) && Held(s, p, i) && Fresh(s, i, i);
  }
}
