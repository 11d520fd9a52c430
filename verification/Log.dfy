/** The redo log of kernel/log.c: on-disk header, commit, recovery, and what a crash
    after any single disk write leaves behind. One block write is one atomic step. */
module Log {
  import opened Blocks

  const LOGBLOCKS: nat := 3 * MAXOPBLOCKS

  type Disk = seq<Block>

  /** Header block at `start`, log blocks right after it. */
  predicate InLog(start: nat, b: nat) {
    start <= b <= start + LOGBLOCKS
  }

  predicate Layout(start: nat, d: Disk) {
    start + LOGBLOCKS < |d|
  }

  // ---------- the header block ----------

  function HeadCount(h: Block): nat {
    GetWord(h, 0)
  }

  /** The first `k` block numbers in a header block. */
  function HeadPrefix(h: Block, k: nat): (bs: seq<word>)
    requires k <= LOGBLOCKS
    ensures |bs| == k && forall i :: 0 <= i < k ==> bs[i] == GetWord(h, 1 + i)
  {
    if k == 0 then [] else HeadPrefix(h, k - 1) + [GetWord(h, k)]
  }

  function HeadBlocks(h: Block): (bs: seq<word>)
    requires HeadCount(h) <= LOGBLOCKS
  {
    HeadPrefix(h, HeadCount(h))
  }

  /** The header buffer after `write_head` has stored the count and `k` block numbers. */
  function PutEntries(h: Block, bs: seq<word>, k: nat): Block
    requires k <= |bs| <= LOGBLOCKS
  {
    if k == 0 then PutWord(h, 0, |bs|) else PutWord(PutEntries(h, bs, k - 1), k, bs[k-1])
  }

  function PutHead(h: Block, bs: seq<word>): Block
    requires |bs| <= LOGBLOCKS
  {
    PutEntries(h, bs, |bs|)
  }

  lemma {:induction false} EntriesStored(h: Block, bs: seq<word>, k: nat)
    requires k <= |bs| <= LOGBLOCKS
    ensures GetWord(PutEntries(h, bs, k), 0) == |bs|
    ensures forall i: nat :: 1 <= i <= k ==> GetWord(PutEntries(h, bs, k), i) == bs[i-1]
  {
    if k == 0 {
      GetPutWord(h, 0, |bs|);
    } else {
      EntriesStored(h, bs, k - 1);
      GetPutWord(PutEntries(h, bs, k - 1), k, bs[k-1]);
    }
  }

  /** `read_head` reads back exactly the block list `write_head` stored, whatever the
      buffer held before. */
  lemma HeadRoundTrip(h: Block, bs: seq<word>)
    requires |bs| <= LOGBLOCKS
    ensures HeadCount(PutHead(h, bs)) == |bs| && HeadBlocks(PutHead(h, bs)) == bs
  {
    EntriesStored(h, bs, |bs|);
    forall i | 0 <= i < |bs| ensures HeadBlocks(PutHead(h, bs))[i] == bs[i] {
      assert GetWord(PutHead(h, bs), 1 + i) == bs[i];
    }
  }

  // ---------- commit and recovery, one block write at a time ----------

  ghost predicate Distinct(bs: seq<word>) {
    bs == [] || (bs[|bs|-1] !in bs[..|bs|-1] && Distinct(bs[..|bs|-1]))
  }

  lemma {:induction false} DistinctAt(bs: seq<word>, i: nat, j: nat)
    requires Distinct(bs) && i < j < |bs|
    ensures bs[i] != bs[j]
  {
    if j == |bs| - 1 {
      assert bs[..j][i] == bs[i];
    } else {
      DistinctAt(bs[..|bs|-1], i, j);
    }
  }

  /** A block list the log may hold: within capacity, outside the log area, no repeats. */
  ghost predicate Loggable(start: nat, size: nat, bs: seq<word>) {
    && |bs| <= LOGBLOCKS
    && (forall i :: 0 <= i < |bs| ==> bs[i] < size && !InLog(start, bs[i]))
    && Distinct(bs)
  }

  ghost predicate ValidHead(start: nat, d: Disk) {
    && Layout(start, d)
    && HeadCount(d[start]) <= LOGBLOCKS
    && Loggable(start, |d|, HeadBlocks(d[start]))
  }

  /** `d` after `k` rounds of `write_log`: cached block `bs[i]` copied to log block `i`. */
  ghost function Copied(start: nat, d: Disk, view: Disk, bs: seq<word>, k: nat): (r: Disk)
    requires Layout(start, d) && |view| == |d| && Loggable(start, |d|, bs) && k <= |bs|
    ensures |r| == |d|
  {
    if k == 0 then d else Copied(start, d, view, bs, k - 1)[start + k := view[bs[k-1]]]
  }

  /** `d` after `k` rounds of `install_trans`: log block `i` copied to home `bs[i]`. */
  ghost function Installed(start: nat, d: Disk, bs: seq<word>, k: nat): (r: Disk)
    requires Layout(start, d) && Loggable(start, |d|, bs) && k <= |bs|
    ensures |r| == |d|
  {
    if k == 0 then d else Installed(start, d, bs, k - 1)[bs[k-1] := d[start + k]]
  }

  /** `d` with a header listing `bs`. */
  ghost function WithHead(start: nat, d: Disk, bs: seq<word>): (r: Disk)
    requires Layout(start, d) && |bs| <= LOGBLOCKS
    ensures |r| == |d|
  {
    d[start := PutHead(d[start], bs)]
  }

  /** The number of disk writes a transaction, respectively a recovery, makes for `bs`. */
  function CommitLength(bs: seq<word>): nat {
    if bs == [] then 0 else 2 * |bs| + 2
  }

  ghost function RecoveryLength(start: nat, d: Disk): nat
    requires ValidHead(start, d)
  {
    |HeadBlocks(d[start])| + 1
  }

  /** The disk after the first `k` writes of `recover_from_log`. */
  ghost function Recovering(start: nat, d: Disk, k: nat): (r: Disk)
    requires ValidHead(start, d) && k <= RecoveryLength(start, d)
    ensures |r| == |d|
  {
    var bs := HeadBlocks(d[start]);
    if k <= |bs| then Installed(start, d, bs, k)
    else WithHead(start, Installed(start, d, bs, |bs|), [])
  }

  /** The disk once `write_log` and the first `write_head` are done: the commit point. */
  ghost function CommitPoint(start: nat, d: Disk, view: Disk, bs: seq<word>): (r: Disk)
    requires Layout(start, d) && |view| == |d| && Loggable(start, |d|, bs)
    ensures |r| == |d|
  {
    WithHead(start, Copied(start, d, view, bs, |bs|), bs)
  }

  /** The disk after the first `k` writes of `commit`: copies to the log, the header, copies
      to the homes, the empty header. */
  ghost function Committing(start: nat, d: Disk, view: Disk, bs: seq<word>, k: nat): (r: Disk)
    requires Layout(start, d) && |view| == |d| && Loggable(start, |d|, bs)
    requires k <= CommitLength(bs)
    ensures |r| == |d|
  {
    if k <= |bs| then Copied(start, d, view, bs, k) else
    var c := CommitPoint(start, d, view, bs);
    if k <= 2 * |bs| + 1 then Installed(start, c, bs, k - |bs| - 1)
    else WithHead(start, Installed(start, c, bs, |bs|), [])
  }

  // ---------- the persistent contents of a disk ----------

  ghost predicate SameHomes(start: nat, d: Disk, e: Disk) {
    |d| == |e| && forall b: nat :: b < |d| && !InLog(start, b) ==> d[b] == e[b]
  }

  /** `d` persistently stores `a`: logged blocks in their log slots, all others at home. */
  ghost predicate Stores(start: nat, d: Disk, a: Disk) {
    && ValidHead(start, d) && |a| == |d|
    && StoredIn(start, d, HeadBlocks(d[start]), a)
  }

  ghost predicate StoredIn(start: nat, d: Disk, bs: seq<word>, a: Disk)
    requires Layout(start, d) && |a| == |d| && Loggable(start, |d|, bs)
  {
    && (forall i :: 0 <= i < |bs| ==> d[start + 1 + i] == a[bs[i]])
    && (forall b: nat {:trigger a[b]} :: b < |d| && !InLog(start, b) && b !in bs ==> d[b] == a[b])
  }

  /** Everything is at home: the header is empty. */
  ghost predicate Clean(start: nat, d: Disk) {
    Layout(start, d) && HeadCount(d[start]) == 0
  }

  lemma CleanStores(start: nat, d: Disk, a: Disk)
    requires Clean(start, d) && SameHomes(start, d, a)
    ensures Stores(start, d, a)
  {
  }

  lemma AtRest(start: nat, d: Disk)
    requires Clean(start, d)
    ensures Pending(start, d, d, [])
  {
  }

  lemma ErasedClean(start: nat, d: Disk, a: Disk)
    requires Layout(start, d) && SameHomes(start, d, a)
    ensures Clean(start, WithHead(start, d, [])) && SameHomes(start, WithHead(start, d, []), a)
  {
    HeadRoundTrip(d[start], []);
  }

  // ---------- crash during recovery ----------

  lemma {:induction false} InstalledElsewhere(start: nat, d: Disk, bs: seq<word>, k: nat, b: nat)
    requires Layout(start, d) && Loggable(start, |d|, bs) && k <= |bs| && b < |d| && b !in bs
    ensures Installed(start, d, bs, k)[b] == d[b]
  {
    if k > 0 {
      InstalledElsewhere(start, d, bs, k - 1, b);
    }
  }

  lemma {:induction false} InstalledAt(start: nat, d: Disk, bs: seq<word>, k: nat, i: nat)
    requires Layout(start, d) && Loggable(start, |d|, bs) && i < k <= |bs|
    ensures Installed(start, d, bs, k)[bs[i]] == d[start + 1 + i]
  {
    if i < k - 1 {
      InstalledAt(start, d, bs, k - 1, i);
      DistinctAt(bs, i, k - 1);
    }
  }

  lemma InstallKeepsLog(start: nat, d: Disk, bs: seq<word>, k: nat, b: nat)
    requires Layout(start, d) && Loggable(start, |d|, bs) && k <= |bs| && InLog(start, b)
    ensures Installed(start, d, bs, k)[b] == d[b]
  {
    InstalledElsewhere(start, d, bs, k, b);
  }

  lemma InstallKeepsStored(start: nat, d: Disk, bs: seq<word>, a: Disk, k: nat)
    requires Layout(start, d) && |a| == |d| && Loggable(start, |d|, bs) && StoredIn(start, d, bs, a)
    requires k <= |bs|
    ensures StoredIn(start, Installed(start, d, bs, k), bs, a)
  {
    var e := Installed(start, d, bs, k);
    forall b: nat | b < |d| && b !in bs ensures e[b] == d[b] {
      InstalledElsewhere(start, d, bs, k, b);
    }
    forall i | 0 <= i < |bs| ensures e[start + 1 + i] == a[bs[i]] {
      InstallKeepsLog(start, d, bs, k, start + 1 + i);
    }
  }

  /** Once every logged block is installed, the homes hold `a`. */
  lemma InstalledHome(start: nat, d: Disk, bs: seq<word>, a: Disk)
    requires Layout(start, d) && |a| == |d| && Loggable(start, |d|, bs) && StoredIn(start, d, bs, a)
    ensures SameHomes(start, Installed(start, d, bs, |bs|), a)
  {
    forall b: nat | b < |d| && !InLog(start, b) ensures Installed(start, d, bs, |bs|)[b] == a[b] {
      if b in bs {
        var i :| 0 <= i < |bs| && bs[i] == b;
        InstalledAt(start, d, bs, |bs|, i);
      } else {
        InstalledElsewhere(start, d, bs, |bs|, b);
      }
    }
  }

  /** Recovery that completes brings everything home and clears the log. */
  lemma RecoveryHome(start: nat, d: Disk, a: Disk)
    requires Stores(start, d, a)
    ensures var e := Recovering(start, d, RecoveryLength(start, d));
            Clean(start, e) && SameHomes(start, e, a)
  {
    var bs := HeadBlocks(d[start]);
    InstalledHome(start, d, bs, a);
    ErasedClean(start, Installed(start, d, bs, |bs|), a);
  }

  /** After any prefix of recovery's writes the disk still stores the same contents. */
  lemma RecoveryPrefix(start: nat, d: Disk, a: Disk, k: nat)
    requires Stores(start, d, a) && k <= RecoveryLength(start, d)
    ensures Stores(start, Recovering(start, d, k), a)
  {
    var bs := HeadBlocks(d[start]);
    if k <= |bs| {
      InstallKeepsStored(start, d, bs, a, k);
      InstallKeepsLog(start, d, bs, k, start);
    } else {
      RecoveryHome(start, d, a);
      CleanStores(start, Recovering(start, d, k), a);
    }
  }

  // ---------- crash during commit ----------

  /** In memory, `view` differs from the disk's homes in the logged blocks only. */
  ghost predicate Pending(start: nat, d: Disk, view: Disk, bs: seq<word>) {
    && Clean(start, d) && |view| == |d| && Loggable(start, |d|, bs)
    && (forall b: nat {:trigger view[b]} :: b < |d| && !InLog(start, b) && b !in bs ==> view[b] == d[b])
  }

  lemma {:induction false} CopiedElsewhere(start: nat, d: Disk, view: Disk, bs: seq<word>, k: nat, b: nat)
    requires Layout(start, d) && |view| == |d| && Loggable(start, |d|, bs) && k <= |bs|
    requires b < |d| && (b == start || !InLog(start, b))
    ensures Copied(start, d, view, bs, k)[b] == d[b]
  {
    if k > 0 {
      CopiedElsewhere(start, d, view, bs, k - 1, b);
    }
  }

  lemma {:induction false} CopiedAt(start: nat, d: Disk, view: Disk, bs: seq<word>, k: nat, i: nat)
    requires Layout(start, d) && |view| == |d| && Loggable(start, |d|, bs) && i < k <= |bs|
    ensures Copied(start, d, view, bs, k)[start + 1 + i] == view[bs[i]]
  {
    if i < k - 1 {
      CopiedAt(start, d, view, bs, k - 1, i);
    }
  }

  /** At the commit point the disk stores what the transaction wrote. */
  lemma CommitPointStores(start: nat, d: Disk, view: Disk, bs: seq<word>)
    requires Pending(start, d, view, bs)
    ensures var c := CommitPoint(start, d, view, bs);
            && HeadCount(c[start]) == |bs| && HeadBlocks(c[start]) == bs
            && Layout(start, c) && StoredIn(start, c, bs, view)
  {
    var e := Copied(start, d, view, bs, |bs|);
    HeadRoundTrip(e[start], bs);
    forall b: nat | b < |d| && !InLog(start, b) ensures e[b] == d[b] {
      CopiedElsewhere(start, d, view, bs, |bs|, b);
    }
    forall i | 0 <= i < |bs| ensures e[start + 1 + i] == view[bs[i]] {
      CopiedAt(start, d, view, bs, |bs|, i);
    }
  }

  /** Before the header write, only log blocks have been written. */
  lemma BeforeCommitPoint(start: nat, d: Disk, view: Disk, bs: seq<word>, k: nat)
    requires Pending(start, d, view, bs) && k <= |bs|
    ensures Stores(start, Copied(start, d, view, bs, k), d)
  {
    var e := Copied(start, d, view, bs, k);
    forall b: nat | b < |d| && (b == start || !InLog(start, b)) ensures e[b] == d[b] {
      CopiedElsewhere(start, d, view, bs, k, b);
    }
    CleanStores(start, e, d);
  }

  /** A completed commit leaves the transaction at home and the log empty. */
  lemma CommittedHome(start: nat, d: Disk, view: Disk, bs: seq<word>)
    requires Pending(start, d, view, bs)
    ensures var e := Committing(start, d, view, bs, CommitLength(bs));
            Clean(start, e) && SameHomes(start, e, view)
  {
    if bs != [] {
      var c := CommitPoint(start, d, view, bs);
      CommitPointStores(start, d, view, bs);
      InstalledHome(start, c, bs, view);
      ErasedClean(start, Installed(start, c, bs, |bs|), view);
    }
  }

  /** From the header write until the header is erased, the log blocks hold the transaction. */
  lemma WhileInstalling(start: nat, d: Disk, view: Disk, bs: seq<word>, k: nat)
    requires Pending(start, d, view, bs) && k <= |bs|
    ensures Stores(start, Installed(start, CommitPoint(start, d, view, bs), bs, k), view)
  {
    var c := CommitPoint(start, d, view, bs);
    CommitPointStores(start, d, view, bs);
    InstallKeepsStored(start, c, bs, view, k);
    InstallKeepsLog(start, c, bs, k, start);
  }

  /** Commit's writes up to any crash point leave the old contents on the disk before the
      header write and the new contents from the header write on. */
  lemma CommitPrefix(start: nat, d: Disk, view: Disk, bs: seq<word>, k: nat)
    requires Pending(start, d, view, bs) && k <= CommitLength(bs)
    ensures Stores(start, Committing(start, d, view, bs, k), if k > |bs| then view else d)
  {
    if k <= |bs| {
      BeforeCommitPoint(start, d, view, bs, k);
    } else if k <= 2 * |bs| + 1 {
      WhileInstalling(start, d, view, bs, k - |bs| - 1);
    } else {
      CommittedHome(start, d, view, bs);
      CleanStores(start, Committing(start, d, view, bs, k), view);
    }
  }

  // ---------- the crash theorem ----------

  /** Reboots: recovery attempt `i` is cut off after `crashes[i]` writes; the last one,
      after all of them, runs to completion. */
  ghost function Reboot(start: nat, d: Disk, crashes: seq<nat>): (r: Disk)
    requires ValidHead(start, d)
    ensures |r| == |d|
    decreases |crashes|
  {
    var n := RecoveryLength(start, d);
    if crashes == [] then Recovering(start, d, n) else
    var e := Recovering(start, d, if crashes[0] < n then crashes[0] else n);
    if ValidHead(start, e) then Reboot(start, e, crashes[1..]) else e
  }

  lemma {:induction false} RebootStores(start: nat, d: Disk, a: Disk, crashes: seq<nat>)
    requires Stores(start, d, a)
    ensures SameHomes(start, Reboot(start, d, crashes), a)
    ensures Clean(start, Reboot(start, d, crashes))
    decreases |crashes|
  {
    if crashes == [] {
      RecoveryHome(start, d, a);
    } else {
      var n := RecoveryLength(start, d);
      var cut := if crashes[0] < n then crashes[0] else n;
      RecoveryPrefix(start, d, a, cut);
      RebootStores(start, Recovering(start, d, cut), a, crashes[1..]);
    }
  }

  /** Crash atomicity. Commit is cut off after `k` of its block writes, and any number of
      recoveries are cut off too. The recovery that completes leaves every home block as
      it was before the transaction if the header write (the one after `|bs|` others) had
      not reached the disk, and as the transaction made it if it had. */
  lemma CrashAtomicity(start: nat, d: Disk, view: Disk, bs: seq<word>, k: nat, crashes: seq<nat>)
    requires Pending(start, d, view, bs) && k <= CommitLength(bs)
    ensures var e := Committing(start, d, view, bs, k);
            && ValidHead(start, e)
            && SameHomes(start, Reboot(start, e, crashes), if k > |bs| then view else d)
  {
    CommitPrefix(start, d, view, bs, k);
    RebootStores(start, Committing(start, d, view, bs, k), if k > |bs| then view else d, crashes);
  }

  // ---------- the log as the kernel runs it ----------

  /** `log_write`'s search: the block list with `b` absorbed or appended. */
  function Absorb(bs: seq<word>, b: word): seq<word> {
    if b in bs then bs else bs + [b]
  }

  lemma AbsorbPending(start: nat, d: Disk, view: Disk, bs: seq<word>, b: word, data: Block)
    requires Pending(start, d, view, bs) && b < |d| && !InLog(start, b)
    requires b in bs || |bs| < LOGBLOCKS
    ensures Pending(start, d, view[b := data], Absorb(bs, b))
  {
    assert (bs + [b])[..|bs|] == bs;
  }

  /** The disks a run of `write_log`, respectively `install_trans`, goes through. */
  ghost function CopyTrace(start: nat, d: Disk, view: Disk, bs: seq<word>, k: nat): (t: seq<Disk>)
    requires Layout(start, d) && |view| == |d| && Loggable(start, |d|, bs) && k <= |bs|
    ensures |t| == k && forall i :: 0 <= i < k ==> t[i] == Copied(start, d, view, bs, i + 1)
  {
    if k == 0 then [] else CopyTrace(start, d, view, bs, k - 1) + [Copied(start, d, view, bs, k)]
  }

  ghost function InstallTrace(start: nat, d: Disk, bs: seq<word>, k: nat): (t: seq<Disk>)
    requires Layout(start, d) && Loggable(start, |d|, bs) && k <= |bs|
    ensures |t| == k && forall i :: 0 <= i < k ==> t[i] == Installed(start, d, bs, i + 1)
  {
    if k == 0 then [] else InstallTrace(start, d, bs, k - 1) + [Installed(start, d, bs, k)]
  }

  ghost function RecoveryTrace(start: nat, d: Disk): (t: seq<Disk>)
    requires ValidHead(start, d)
    ensures |t| == RecoveryLength(start, d)
    ensures forall k :: 1 <= k <= |t| ==> t[k-1] == Recovering(start, d, k)
  {
    var bs := HeadBlocks(d[start]);
    InstallTrace(start, d, bs, |bs|) + [Recovering(start, d, |bs| + 1)]
  }

  ghost function CommitTrace(start: nat, d: Disk, view: Disk, bs: seq<word>): (t: seq<Disk>)
    requires Layout(start, d) && |view| == |d| && Loggable(start, |d|, bs)
    ensures |t| == CommitLength(bs)
    ensures forall k :: 1 <= k <= |t| ==> t[k-1] == Committing(start, d, view, bs, k)
  {
    if bs == [] then [] else
    var c := CommitPoint(start, d, view, bs);
    CopyTrace(start, d, view, bs, |bs|) + [c] + InstallTrace(start, c, bs, |bs|)
    + [Committing(start, d, view, bs, CommitLength(bs))]
  }

  /** Two disks that agree outside `bs` receive the same installs and end up equal. */
  lemma InstallsMeet(start: nat, c: Disk, e: Disk, bs: seq<word>)
    requires Layout(start, c) && |e| == |c| && Loggable(start, |c|, bs)
    requires forall b: nat :: b < |c| && b !in bs ==> c[b] == e[b]
    ensures Installed(start, c, bs, |bs|) == Installed(start, e, bs, |bs|)
  {
    forall b: nat | b < |c|
      ensures Installed(start, c, bs, |bs|)[b] == Installed(start, e, bs, |bs|)[b]
    {
      if b in bs {
        var i :| 0 <= i < |bs| && bs[i] == b;
        InstalledAt(start, c, bs, |bs|, i);
        InstalledAt(start, e, bs, |bs|, i);
        assert InLog(start, start + 1 + i);
      } else {
        InstalledElsewhere(start, c, bs, |bs|, b);
        InstalledElsewhere(start, e, bs, |bs|, b);
      }
    }
  }

  lemma {:induction false} CopiesAgree(start: nat, d: Disk, e: Disk, view: Disk, bs: seq<word>, k: nat, b: nat)
    requires Layout(start, d) && |view| == |d| == |e| && Loggable(start, |d|, bs) && k <= |bs|
    requires b < |d| && d[b] == e[b]
    ensures Copied(start, d, view, bs, k)[b] == Copied(start, e, view, bs, k)[b]
  {
    if k > 0 {
      CopiesAgree(start, d, e, view, bs, k - 1, b);
    }
  }

  /** The disk and the cache, which start out equal but for the logged homes, go through
      commit together and come out equal. */
  lemma CommitMeets(start: nat, d: Disk, view: Disk, bs: seq<word>)
    requires Pending(start, d, view, bs)
    requires forall b: nat :: b < |d| && InLog(start, b) ==> view[b] == d[b]
    ensures var d1, v1 := Copied(start, d, view, bs, |bs|), Copied(start, view, view, bs, |bs|);
            && (forall b: nat :: b < |d| && InLog(start, b) ==> v1[b] == d1[b])
            && v1[start] == d1[start]
            && Installed(start, WithHead(start, d1, bs), bs, |bs|)
               == Installed(start, WithHead(start, v1, bs), bs, |bs|)
  {
    var d1, v1 := Copied(start, d, view, bs, |bs|), Copied(start, view, view, bs, |bs|);
    forall b: nat | b < |d| && b !in bs ensures v1[b] == d1[b] {
      CopiesAgree(start, d, view, view, bs, |bs|, b);
    }
    assert InLog(start, start);
    InstallsMeet(start, WithHead(start, d1, bs), WithHead(start, v1, bs), bs);
  }

  lemma Snoc<T>(o: seq<T>, a: seq<T>, x: T)
    ensures o + a + [x] == o + (a + [x])
  {
  }

  lemma Concat<T>(o: seq<T>, a: seq<T>, b: seq<T>, c: seq<T>, d: seq<T>)
    ensures o + a + b + c + d == o + (a + b + c + d)
  {
  }

  class LogDevice {
    const start: nat
    var disk: Disk
    var cache: Disk      // what bread returns for each block
    var lh: seq<word>    // log.lh.block[0 .. log.lh.n]
    ghost var trace: seq<Disk>  // the disk after every block write, in order

    /** Buffers of log blocks are in step with the disk. */
    ghost predicate Synced()
      reads this
    {
      && Layout(start, disk) && |cache| == |disk|
      && forall b: nat :: b < |disk| && InLog(start, b) ==> cache[b] == disk[b]
    }

    /** Between commits: the header on disk is empty and only logged blocks are newer in
        memory. */
    ghost predicate Valid()
      reads this
    {
      Synced() && Pending(start, disk, cache, lh)
    }

    /** Boot: nothing cached yet, so reads see the disk. */
    constructor (start: nat, disk: Disk)
      ensures this.start == start && this.disk == disk && cache == disk && lh == [] && trace == []
    {
      this.start, this.disk, cache, lh, trace := start, disk, disk, [], [];
    }

    method Bwrite(b: nat)
      requires b < |disk| && |cache| == |disk|
      modifies this`disk, this`trace
      ensures disk == old(disk)[b := cache[b]]
      ensures trace == old(trace) + [disk]
    {
      disk := disk[b := cache[b]];
      trace := trace + [disk];
    }

    method WriteLog()
      requires Layout(start, disk) && |cache| == |disk| && Loggable(start, |disk|, lh)
      modifies this`disk, this`trace, this`cache
      ensures disk == Copied(start, old(disk), old(cache), lh, |lh|)
      ensures cache == Copied(start, old(cache), old(cache), lh, |lh|)
      ensures trace == old(trace) + CopyTrace(start, old(disk), old(cache), lh, |lh|)
    {
      var tail := 0;
      while tail < |lh|
        invariant 0 <= tail <= |lh|
        invariant disk == Copied(start, old(disk), old(cache), lh, tail)
        invariant cache == Copied(start, old(cache), old(cache), lh, tail)
        invariant trace == old(trace) + CopyTrace(start, old(disk), old(cache), lh, tail)
      {
        CopiedElsewhere(start, old(cache), old(cache), lh, tail, lh[tail]);
        cache := cache[start + tail + 1 := cache[lh[tail]]];
        Bwrite(start + tail + 1);
        Snoc(old(trace), CopyTrace(start, old(disk), old(cache), lh, tail), disk);
        tail := tail + 1;
      }
    }

    method WriteHead()
      requires Layout(start, disk) && |cache| == |disk| && |lh| <= LOGBLOCKS
      requires cache[start] == disk[start]
      modifies this`disk, this`trace, this`cache
      ensures disk == WithHead(start, old(disk), lh) && cache == WithHead(start, old(cache), lh)
      ensures trace == old(trace) + [disk]
    {
      var hb := PutWord(cache[start], 0, |lh|);
      var i := 0;
      while i < |lh|
        invariant 0 <= i <= |lh|
        invariant hb == PutEntries(cache[start], lh, i)
      {
        hb := PutWord(hb, 1 + i, lh[i]);
        i := i + 1;
      }
      cache := cache[start := hb];
      Bwrite(start);
    }

    /** One round of `install_trans`: log block `tail` is copied home and written. */
    method InstallOne(tail: nat)
      requires Synced() && Loggable(start, |disk|, lh) && tail < |lh|
      modifies this`disk, this`trace, this`cache
      ensures Synced() && |disk| == |old(disk)|
      ensures disk == old(disk)[lh[tail] := old(disk)[start + tail + 1]]
      ensures cache == old(cache)[lh[tail] := old(disk)[start + tail + 1]]
      ensures trace == old(trace) + [disk]
    {
      assert InLog(start, start + tail + 1);
      cache := cache[lh[tail] := cache[start + tail + 1]];
      Bwrite(lh[tail]);
    }

    method InstallTrans()
      requires Synced() && Loggable(start, |disk|, lh)
      modifies this`disk, this`trace, this`cache
      ensures Synced()
      ensures disk == Installed(start, old(disk), lh, |lh|)
      ensures cache == Installed(start, old(cache), lh, |lh|)
      ensures trace == old(trace) + InstallTrace(start, old(disk), lh, |lh|)
    {
      var tail := 0;
      while tail < |lh|
        invariant 0 <= tail <= |lh|
        invariant Synced() && |disk| == |old(disk)|
        invariant disk == Installed(start, old(disk), lh, tail)
        invariant cache == Installed(start, old(cache), lh, tail)
        invariant trace == old(trace) + InstallTrace(start, old(disk), lh, tail)
      {
        InstallKeepsLog(start, old(disk), lh, tail, start + tail + 1);
        assert InLog(start, start + tail + 1);
        InstallOne(tail);
        Snoc(old(trace), InstallTrace(start, old(disk), lh, tail), disk);
        tail := tail + 1;
      }
    }

    /** The disk after each of the writes `commit` makes, in order, and its outcome. */
    method Commit()
      requires Valid()
      modifies this`disk, this`trace, this`cache, this`lh
      ensures Valid() && lh == [] && cache == disk
      ensures trace == old(trace) + CommitTrace(start, old(disk), old(cache), old(lh))
      ensures SameHomes(start, disk, old(cache))
    {
      CommittedHome(start, disk, cache, lh);
      if |lh| > 0 {
        CommitMeets(start, disk, cache, lh);
        WriteLog();
        WriteHead();
        ghost var c := disk;
        assert c == CommitPoint(start, old(disk), old(cache), lh);
        InstallTrans();
        assert cache == disk;
        lh := [];
        WriteHead();
        assert cache == disk == Committing(start, old(disk), old(cache), old(lh), CommitLength(old(lh)));
        AtRest(start, disk);
        Concat(old(trace), CopyTrace(start, old(disk), old(cache), old(lh), |old(lh)|), [c],
               InstallTrace(start, c, old(lh), |old(lh)|), [disk]);
      }
    }

    method ReadHead()
      requires Layout(start, cache) && HeadCount(cache[start]) <= LOGBLOCKS
      modifies this`lh
      ensures lh == HeadBlocks(cache[start])
    {
      lh := [];
      var n := HeadCount(cache[start]);
      var i := 0;
      while i < n
        invariant 0 <= i <= n
        invariant lh == HeadPrefix(cache[start], i)
      {
        lh := lh + [GetWord(cache[start], 1 + i)];
        i := i + 1;
      }
    }

    /** The disk after each of the writes recovery makes, in order, and its outcome. */
    method RecoverFromLog()
      requires ValidHead(start, disk) && cache == disk
      modifies this`disk, this`trace, this`cache, this`lh
      ensures Valid() && lh == [] && cache == disk
      ensures trace == old(trace) + RecoveryTrace(start, old(disk))
    {
      ReadHead();
      InstallTrans();
      ErasedClean(start, disk, disk);
      ghost var bs := lh;
      lh := [];
      WriteHead();
      AtRest(start, disk);
      Snoc(old(trace), InstallTrace(start, old(disk), bs, |bs|), disk);
    }
  }
}
