/** The disk driver's descriptor and ring protocol: kernel/virtio_disk.c, after sections 2.6 and
    5.2 of VIRTIO 1.1. The device may take requests and complete them at any time and complete
    them in any order. */
module Virtio {
  const NUM: nat := 8
  const WRAP: nat := 0x1_0000    // ring indices are 16-bit

  const FREE: int := -1
  const HELD: int := -2          // allocated, not yet in a chain

  datatype Phase = Posted | Taken | Done | Acked

  /** A request in flight: its buffer, and the second and third descriptors of its chain. */
  datatype Req = Req(buf: nat, mid: nat, last: nat, phase: Phase)

  // ---------- 16-bit ring indices ----------

  lemma RingIndex(a: nat, b: nat)
    requires a <= b <= a + NUM
    ensures a % WRAP == b % WRAP <==> a == b
    ensures b % WRAP % NUM == b % NUM && (b % WRAP + 1) % WRAP == (b + 1) % WRAP
    ensures a % WRAP % NUM == a % NUM && (a % WRAP + 1) % WRAP == (a + 1) % WRAP
  {
    Eighth(a);
    Eighth(b);
    assert b == WRAP * (b / WRAP) + b % WRAP && a == WRAP * (a / WRAP) + a % WRAP;
  }

  lemma Eighth(x: nat)
    ensures x % WRAP % NUM == x % NUM
  {
    assert x == NUM * (8192 * (x / WRAP)) + x % WRAP;
    Rem(8192 * (x / WRAP), x % WRAP);
  }

  lemma Rem(q: nat, r: nat)
    ensures (NUM * q + r) % NUM == r % NUM
  {
  }

  /** Entries less than a ring apart are in different places. */
  lemma Places(a: nat, b: nat)
    requires a < b < a + NUM
    ensures a % NUM != b % NUM
  {
  }

  ghost predicate Distinct(s: seq<nat>, from: nat) {
    forall i, j :: from <= i < j < |s| ==> s[i] != s[j]
  }

  /** Distinct descriptors: there are at most NUM. */
  lemma {:induction false} AtMost(s: seq<nat>, from: nat, n: nat)
    requires from <= |s| && Distinct(s, from) && forall i :: from <= i < |s| ==> s[i] < n
    ensures |s| - from <= n
    decreases n
  {
    if from < |s| {
      assert s[from] < n;
      if k :| from <= k < |s| && s[k] == n - 1 {
        var t := s[from..k] + s[k + 1..];
        assert forall i :: 0 <= i < |t| ==> t[i] == s[if i < k - from then from + i else from + i + 1];
        AtMost(t, 0, n - 1);
      } else {
        AtMost(s, from, n - 1);
      }
    }
  }

  // ---------- invariants ----------

  /** Every descriptor is free, held, or in the chain of exactly one request. */
  ghost predicate Chains(free: seq<bool>, next: seq<nat>, more: seq<bool>, own: seq<int>, req: map<int, Req>) {
    && |free| == |next| == |more| == |own| == NUM
    && (forall i :: 0 <= i < NUM ==> (free[i] <==> own[i] == FREE))
    && (forall i :: 0 <= i < NUM && own[i] >= 0 ==> own[i] in req && (i == own[i] || i == req[own[i]].mid || i == req[own[i]].last))
    && (forall h :: h in req ==> Chain(next, more, own, h, req[h]))
  }

  predicate Chain(next: seq<nat>, more: seq<bool>, own: seq<int>, h: int, r: Req)
    requires |next| == |more| == |own| == NUM
  {
    && 0 <= h < NUM && r.mid < NUM && r.last < NUM && h != r.mid && h != r.last && r.mid != r.last
    && own[h] == h && own[r.mid] == h && own[r.last] == h
    && next[h] == r.mid && next[r.mid] == r.last && more[h] && more[r.mid] && !more[r.last]
  }

  /** The chains of two requests have no descriptor in common, and none is free. */
  lemma InFlightApart(free: seq<bool>, next: seq<nat>, more: seq<bool>, own: seq<int>, req: map<int, Req>, g: int,
      h: int)
    requires Chains(free, next, more, own, req) && g in req && h in req && g != h
    ensures {g, req[g].mid as int, req[g].last as int} !! {h, req[h].mid as int, req[h].last as int}
    ensures 0 <= g < NUM && req[g].mid < NUM && req[g].last < NUM && !free[g] && !free[req[g].mid] && !free[req[g].last]
  {
    assert Chain(next, more, own, g, req[g]) && Chain(next, more, own, h, req[h]);
  }

  /** Fewer than three descriptors are free. */
  ghost predicate Scarce(own: seq<int>) {
    && |own| == NUM
    && forall x: nat, y: nat, z: nat :: Three(x, y, z) ==> !(own[x] == FREE && own[y] == FREE && own[z] == FREE)
  }

  lemma NoneFree(own: seq<int>)
    requires |own| == NUM && forall x :: 0 <= x < NUM ==> own[x] != FREE
    ensures Scarce(own)
  {
  }

  lemma LastTwo(own: seq<int>, i: nat, j: nat, left: seq<int>)
    requires |own| == NUM && i < NUM && j < NUM && (left == own[i := HELD][j := HELD] || (i == j && left == own[i := HELD]))
    requires forall x :: 0 <= x < NUM ==> left[x] != FREE
    ensures Scarce(own)
  {
    forall x: nat | x < NUM && own[x] == FREE ensures x == i || x == j {
      assert left[x] != FREE;
    }
  }

  lemma Restored(own: seq<int>, i: nat, j: nat)
    requires i < |own| && j < |own| && own[i] == own[j] == FREE
    ensures own[i := HELD][i := FREE] == own && own[i := HELD][j := HELD][i := FREE][j := FREE] == own
  {
  }

  predicate Formatted(next: seq<nat>, more: seq<bool>, a: nat, b: nat, c: nat) {
    |next| == |more| == NUM && Three(a, b, c) && next[a] == b && next[b] == c && more[a] && more[b] && !more[c]
  }

  predicate Three(a: nat, b: nat, c: nat) {
    a < NUM && b < NUM && c < NUM && a != b && a != c && b != c
  }

  /** What the device has not taken yet is in the available ring. */
  ghost predicate AvailRing(avail: seq<nat>, posted: seq<nat>, taken: nat, req: map<int, Req>) {
    && |avail| == NUM && taken <= |posted| && Distinct(posted, taken)
    && forall k :: taken <= k < |posted| ==> posted[k] < NUM && posted[k] in req && req[posted[k]].phase == Posted && avail[k % NUM] == posted[k]
  }

  /** What the driver has not looked at yet is in the used ring. */
  ghost predicate UsedRing(used: seq<nat>, done: seq<nat>, handled: nat, req: map<int, Req>, status: seq<int>) {
    && |used| == |status| == NUM && handled <= |done| && Distinct(done, handled)
    && forall k :: handled <= k < |done| ==>
         && done[k] < NUM && done[k] in req && req[done[k]].phase == Done
         && used[k % NUM] == done[k] && status[done[k]] == 0
  }

  /** Each request has its own buffer, marked busy until its completion is seen. */
  ghost predicate Buffers(info: seq<int>, busy: set<nat>, req: map<int, Req>) {
    && |info| == NUM
    && (forall h :: h in req ==> 0 <= h < NUM && info[h] == req[h].buf && (req[h].buf in busy <==> req[h].phase != Acked))
    && (forall g, h :: g in req && h in req && req[g].buf == req[h].buf ==> g == h)
  }

  /** Descriptors in hand may be written. */
  lemma ChainsFormat(free: seq<bool>, next: seq<nat>, more: seq<bool>, own: seq<int>, req: map<int, Req>, a: nat,
      b: nat, c: nat)
    requires Chains(free, next, more, own, req) && Three(a, b, c) && own[a] == own[b] == own[c] == HELD
    ensures Chains(free, next[a := b][b := c][c := 0], more[a := true][b := true][c := false], own, req)
  {
  }

  /** A formatted chain becomes a request; its head was not one. */
  lemma ChainsPost(free: seq<bool>, next: seq<nat>, more: seq<bool>, own: seq<int>, req: map<int, Req>, a: nat,
      b: nat, c: nat, buf: nat)
    requires Chains(free, next, more, own, req) && Three(a, b, c) && own[a] == own[b] == own[c] == HELD
    requires Formatted(next, more, a, b, c)
    ensures a !in req && Chains(free, next, more, own[a := a][b := a][c := a], req[a := Req(buf, b, c, Posted)])
  {
    assert a in req ==> Chain(next, more, own, a, req[a]);
    forall h | h in req ensures Chain(next, more, own[a := a][b := a][c := a], h, req[h]) {
      ChainAside(next, more, own, h, req[h], a, b, c);
    }
    assert Chain(next, more, own[a := a][b := a][c := a], a, Req(buf, b, c, Posted));
    hide Chain;
  }

  lemma ChainAside(next: seq<nat>, more: seq<bool>, own: seq<int>, h: int, r: Req, a: nat, b: nat, c: nat)
    requires |next| == |more| == |own| == NUM && Chain(next, more, own, h, r)
    requires Three(a, b, c) && own[a] == own[b] == own[c] == HELD
    ensures Chain(next, more, own[a := a][b := a][c := a], h, r)
  {
  }

  lemma AvailPost(avail: seq<nat>, posted: seq<nat>, taken: nat, req: map<int, Req>, a: nat, r: Req)
    requires AvailRing(avail, posted, taken, req) && a < NUM && a !in req && r.phase == Posted
    ensures |posted| - taken < NUM && AvailRing(avail[|posted| % NUM := a], posted + [a], taken, req[a := r])
  {
    assert forall k :: taken <= k < |posted| ==> posted[k] != a;
    AtMost(posted + [a], taken, NUM);
    forall k | taken <= k < |posted| ensures k % NUM != |posted| % NUM {
      Places(k, |posted|);
    }
  }

  lemma UsedOther(used: seq<nat>, done: seq<nat>, handled: nat, req: map<int, Req>, status: seq<int>, a: nat, r: Req,
      x: int)
    requires UsedRing(used, done, handled, req, status) && a < NUM && (a in req ==> req[a].phase != Done)
    ensures UsedRing(used, done, handled, req[a := r], status[a := x])
  {
  }

  lemma AvailOther(avail: seq<nat>, posted: seq<nat>, taken: nat, req: map<int, Req>, a: nat, r: Req)
    requires AvailRing(avail, posted, taken, req) && (a in req ==> req[a].phase != Posted)
    ensures AvailRing(avail, posted, taken, req[a := r])
  {
  }

  lemma Rephased(free: seq<bool>, next: seq<nat>, more: seq<bool>, own: seq<int>, req: map<int, Req>, h: int, ph: Phase)
    requires Chains(free, next, more, own, req) && h in req
    ensures Chains(free, next, more, own, req[h := req[h].(phase := ph)])
  {
  }

  /** The device takes the oldest entry of the available ring. */
  lemma AvailTake(avail: seq<nat>, posted: seq<nat>, taken: nat, req: map<int, Req>)
    requires AvailRing(avail, posted, taken, req) && taken < |posted|
    ensures var h := posted[taken]; h in req && AvailRing(avail, posted, taken + 1, req[h := req[h].(phase := Taken)])
  {
  }

  lemma UsedPut(used: seq<nat>, done: seq<nat>, handled: nat, req: map<int, Req>, status: seq<int>, h: nat)
    requires UsedRing(used, done, handled, req, status) && h < NUM && h in req && req[h].phase != Done
    ensures |done| - handled < NUM
    ensures UsedRing(used[|done| % NUM := h], done + [h], handled, req[h := req[h].(phase := Done)], status[h := 0])
  {
    assert forall k :: handled <= k < |done| ==> done[k] != h;
    AtMost(done + [h], handled, NUM);
    forall k | handled <= k < |done| ensures k % NUM != |done| % NUM {
      Places(k, |done|);
    }
  }

  lemma UsedTake(used: seq<nat>, done: seq<nat>, handled: nat, req: map<int, Req>, status: seq<int>)
    requires UsedRing(used, done, handled, req, status) && handled < |done|
    ensures var h := done[handled]; h in req && UsedRing(used, done, handled + 1, req[h := req[h].(phase := Acked)], status)
  {
  }

  lemma AvailBound(avail: seq<nat>, posted: seq<nat>, taken: nat, req: map<int, Req>)
    requires AvailRing(avail, posted, taken, req)
    ensures taken <= |posted| <= taken + NUM
  {
    AtMost(posted, taken, NUM);
  }

  lemma UsedBound(used: seq<nat>, done: seq<nat>, handled: nat, req: map<int, Req>, status: seq<int>)
    requires UsedRing(used, done, handled, req, status)
    ensures handled <= |done| <= handled + NUM
  {
    AtMost(done, handled, NUM);
  }

  /** The chain of a request is let go. */
  lemma ChainsDrop(free: seq<bool>, next: seq<nat>, more: seq<bool>, own: seq<int>, req: map<int, Req>, h: int)
    requires Chains(free, next, more, own, req) && h in req
    ensures 0 <= h < NUM && |next| == |more| == |own| == NUM && Chain(next, more, own, h, req[h])
    ensures Chains(free, next, more, own[h := HELD][req[h].mid := HELD][req[h].last := HELD], req - {h})
  {
    var r := req[h];
    assert Chain(next, more, own, h, r);
    var o2 := own[h := HELD][r.mid := HELD][r.last := HELD];
    forall g | g in req - {h} ensures Chain(next, more, o2, g, req[g]) {
      assert Chain(next, more, own, g, req[g]);
    }
  }

  /** Nothing else refers to a request whose completion was seen. */
  lemma Finished(avail: seq<nat>, posted: seq<nat>, taken: nat, used: seq<nat>, done: seq<nat>, handled: nat,
      req: map<int, Req>, status: seq<int>, info: seq<int>, busy: set<nat>, h: nat)
    requires AvailRing(avail, posted, taken, req) && UsedRing(used, done, handled, req, status)
        && Buffers(info, busy, req)
    requires h in req && req[h].phase == Acked
    ensures h < NUM && AvailRing(avail, posted, taken, req - {h}) && UsedRing(used, done, handled, req - {h}, status)
        && Buffers(info[h := 0], busy, req - {h})
  {
  }

  lemma FreeIsOwn(free: seq<bool>, next: seq<nat>, more: seq<bool>, own: seq<int>, req: map<int, Req>)
    requires Chains(free, next, more, own, req)
    ensures |free| == |own| == NUM && forall i :: 0 <= i < NUM ==> (free[i] <==> own[i] == FREE)
  {
  }

  lemma Sizes(free: seq<bool>, next: seq<nat>, more: seq<bool>, own: seq<int>, avail: seq<nat>, posted: seq<nat>,
      taken: nat, used: seq<nat>, done: seq<nat>, handled: nat, req: map<int, Req>, status: seq<int>, info: seq<int>, busy: set<nat>)
    requires Chains(free, next, more, own, req) && AvailRing(avail, posted, taken, req)
        && UsedRing(used, done, handled, req, status) && Buffers(info, busy, req)
    ensures |free| == |next| == |more| == |own| == |avail| == |used| == |status| == |info| == NUM
        && taken <= |posted| && handled <= |done|
    ensures forall h :: h in req ==> 0 <= h < NUM
  {
  }

  lemma NotHead(free: seq<bool>, next: seq<nat>, more: seq<bool>, own: seq<int>, req: map<int, Req>, a: nat)
    requires Chains(free, next, more, own, req) && a < NUM && own[a] == HELD
    ensures a !in req
  {
  }

  lemma UsedAside(used: seq<nat>, done: seq<nat>, handled: nat, req: map<int, Req>, status: seq<int>, a: nat, x: int)
    requires UsedRing(used, done, handled, req, status) && a < NUM && a !in req
    ensures UsedRing(used, done, handled, req, status[a := x])
  {
  }

  lemma BuffersAside(info: seq<int>, busy: set<nat>, req: map<int, Req>, a: nat, buf: nat)
    requires Buffers(info, busy, req) && a < NUM && a !in req && forall h :: h in req ==> req[h].buf != buf
    ensures Buffers(info[a := buf], busy + {buf}, req)
  {
  }

  lemma BuffersPost(info: seq<int>, busy: set<nat>, req: map<int, Req>, a: nat, r: Req)
    requires Buffers(info, busy, req) && a < NUM && a !in req && r.phase == Posted && forall h :: h in req ==> req[h].buf != r.buf
    requires info[a] == r.buf && r.buf in busy
    ensures Buffers(info, busy, req[a := r])
  {
  }

  /** A request goes on without its completion being seen. */
  lemma BuffersGoOn(info: seq<int>, busy: set<nat>, req: map<int, Req>, h: int, ph: Phase)
    requires Buffers(info, busy, req) && h in req && (req[h].phase == Acked <==> ph == Acked)
    ensures Buffers(info, busy, req[h := req[h].(phase := ph)])
  {
  }

  lemma BuffersSeen(info: seq<int>, busy: set<nat>, req: map<int, Req>, h: int)
    requires Buffers(info, busy, req) && h in req && req[h].phase != Acked
    ensures req[h].buf in busy && Buffers(info, busy - {req[h].buf}, req[h := req[h].(phase := Acked)])
  {
  }

  class Disk {
    var free: seq<bool>
    var next: seq<nat>       // desc[i].next
    var more: seq<bool>      // desc[i].flags & VRING_DESC_F_NEXT
    var info: seq<int>       // info[i].b
    var status: seq<int>     // info[i].status, written by the device
    var avail: seq<nat>
    var availIdx: nat
    var used: seq<nat>
    var usedIdx: nat         // written by the device
    var usedSeen: nat        // disk.used_idx
    var availSeen: nat       // how far the device has looked
    var busy: set<nat>       // buffers with b->disk == 1
    ghost var req: map<int, Req>
    ghost var own: seq<int>
    ghost var posted: seq<nat>   // heads ever put in the available ring
    ghost var taken: nat         // ... of which the device has taken this many
    ghost var done: seq<nat>     // heads ever put in the used ring
    ghost var handled: nat       // ... of which the driver has handled this many

    ghost predicate Valid()
      reads this
    {
      && Chains(free, next, more, own, req) && AvailRing(avail, posted, taken, req)
          && UsedRing(used, done, handled, req, status)
      && Buffers(info, busy, req)
      && availIdx == |posted| % WRAP && usedIdx == |done| % WRAP && usedSeen == handled % WRAP
          && availSeen == taken % WRAP
    }

    /** No descriptor is held outside a chain: free and in-flight descriptors are all. */
    ghost predicate Settled()
      reads this
    {
      forall i :: 0 <= i < |own| ==> own[i] != HELD
    }

    constructor ()
      ensures Valid() && Settled() && req == map[] && busy == {}
    {
      free, more := seq(NUM, _ => true), seq(NUM, _ => false);
      next, avail, used := seq(NUM, _ => 0), seq(NUM, _ => 0), seq(NUM, _ => 0);
      info, status := seq(NUM, _ => 0), seq(NUM, _ => 0);
      availIdx, usedIdx, usedSeen, availSeen, busy := 0, 0, 0, 0, {};
      req, own, posted, taken, done, handled := map[], seq(NUM, _ => FREE), [], 0, [], 0;
    }

    method AllocDesc() returns (i: int)
      requires Valid()
      modifies this`free, this`own
      ensures Valid() && -1 <= i < NUM
      ensures i == -1 ==> free == old(free) && own == old(own) && forall j :: 0 <= j < NUM ==> !free[j]
      ensures i >= 0 ==> old(free)[i] && (forall j :: 0 <= j < i ==> !old(free)[j])
      ensures i >= 0 ==> free == old(free)[i := false] && own == old(own)[i := HELD]
    {
      i := 0;
      while i < NUM
        invariant 0 <= i <= NUM && forall j :: 0 <= j < i ==> !free[j]
      {
        if free[i] {
          free := free[i := false];
          own := own[i := HELD];
          return;
        }
        i := i + 1;
      }
      i := -1;
    }

    method FreeDesc(i: nat)
      requires Valid() && i < NUM && own[i] == HELD
      modifies this`free, this`own, this`next, this`more
      ensures Valid() && free == old(free)[i := true] && own == old(own)[i := FREE] && next == old(next)[i := 0]
          && more == old(more)[i := false]
    {
      assert !free[i];   // no "free_desc 2" panic
      next, more := next[i := 0], more[i := false];
      free := free[i := true];
      own := own[i := FREE];
    }

    /** Three descriptors, or none: the loop of `alloc3_desc`, three rounds written out. */
    method Alloc3Desc() returns (ok: bool, a: nat, b: nat, c: nat)
      requires Valid()
      modifies this`free, this`own, this`next, this`more
      ensures Valid() && (!ok ==> own == old(own))
      ensures ok ==> Three(a, b, c) && own == old(own)[a := HELD][b := HELD][c := HELD]
      ensures ok ==> old(own)[a] == old(own)[b] == old(own)[c] == FREE
      ensures !ok ==> Scarce(own)
    {
      hide Chains, AvailRing, UsedRing, Buffers, Scarce;
      a, b, c := 0, 0, 0;
      var i := TakeDesc();
      if i < 0 {
        NoneFree(own);
        return false, a, b, c;
      }
      var j := TakeDesc();
      if j < 0 {
        LastTwo(old(own), i, i, own);
        FreeDesc(i);
        Restored(old(own), i, i);
        return false, a, b, c;
      }
      var k := TakeDesc();
      if k < 0 {
        LastTwo(old(own), i, j, own);
        FreeDesc(i);
        FreeDesc(j);
        Restored(old(own), i, j);
        return false, a, b, c;
      }
      return true, i, j, k;
    }

    /** `alloc_desc`, in terms of what each descriptor is used for. */
    method TakeDesc() returns (i: int)
      requires Valid()
      modifies this`free, this`own
      ensures Valid() && -1 <= i < NUM == |own| == |old(own)|
      ensures i == -1 ==> own == old(own) && forall x :: 0 <= x < NUM ==> own[x] != FREE
      ensures i >= 0 ==> old(own)[i] == FREE && own == old(own)[i := HELD]
    {
      FreeIsOwn(free, next, more, own, req);
      hide Chains, AvailRing, UsedRing, Buffers;
      i := AllocDesc();
    }

    /** Writes the three descriptors of a chain. */
    method Format(a: nat, b: nat, c: nat)
      requires Valid() && Three(a, b, c) && own[a] == own[b] == own[c] == HELD
      modifies this`next, this`more
      ensures Valid() && Formatted(next, more, a, b, c)
    {
      hide AvailRing, UsedRing, Buffers;
      ChainsFormat(free, next, more, own, req, a, b, c);
      next, more := next[a := b][b := c][c := 0], more[a := true][b := true][c := false];
    }

    /** Records the buffer for the interrupt handler. */
    method Record(a: nat, buf: nat)
      requires Valid() && a < NUM && own[a] == HELD && forall h :: h in req ==> req[h].buf != buf
      modifies this`status, this`busy, this`info
      ensures Valid() && busy == old(busy) + {buf} && |info| == NUM && info[a] == buf
    {
      NotHead(free, next, more, own, req, a);
      hide Chains, AvailRing;
      UsedAside(used, done, handled, req, status, a, 0xff);
      BuffersAside(info, busy, req, a, buf);
      hide UsedRing, Buffers;
      status := status[a := 0xff];
      busy := busy + {buf};
      info := info[a := buf];
    }

    /** Tells the device: the head goes in the available ring. */
    method Enqueue(a: nat, b: nat, c: nat, buf: nat)
      requires Valid() && Three(a, b, c) && own[a] == own[b] == own[c] == HELD && Formatted(next, more, a, b, c)
      requires buf in busy && |info| == NUM && info[a] == buf && forall h :: h in req ==> req[h].buf != buf
      modifies this`avail, this`availIdx, this`req, this`own, this`posted
      ensures Valid() && own == old(own)[a := a][b := a][c := a] && req == old(req)[a := Req(buf, b, c, Posted)]
    {
      hide Chains, AvailRing, UsedRing, Buffers, Formatted, Distinct;
      ghost var r := Req(buf, b, c, Posted);
      Sizes(free, next, more, own, avail, posted, taken, used, done, handled, req, status, info, busy);
      ChainsPost(free, next, more, own, req, a, b, c, buf);
      AvailPost(avail, posted, taken, req, a, r);
      UsedOther(used, done, handled, req, status, a, r, status[a]);
      assert status[a := status[a]] == status;
      BuffersPost(info, busy, req, a, r);
      RingIndex(taken, |posted|);
      avail := avail[availIdx % NUM := a];
      availIdx := (availIdx + 1) % WRAP;
      req := req[a := r];
      own := own[a := a][b := a][c := a];
      posted := posted + [a];
    }

    /** The first part of `virtio_disk_rw`, under the lock: false when it has to sleep until
        descriptors are freed. */
    method Submit(buf: nat) returns (ok: bool)
      requires Valid() && Settled() && forall h :: h in req ==> req[h].buf != buf
      modifies this`free, this`own, this`next, this`more, this`status, this`busy, this`info, this`avail, this`availIdx, this`req, this`posted
      ensures Valid() && Settled() && (!ok ==> req == old(req) && own == old(own) && busy == old(busy))
      ensures !ok ==> Scarce(own)
      ensures ok ==> exists h, mid, last :: h !in old(req) && req == old(req)[h := Req(buf, mid, last, Posted)] && busy == old(busy) + {buf}
    {
      hide Chains, AvailRing, UsedRing, Buffers;
      FreeIsOwn(free, next, more, own, req);
      var a, b, c;
      ok, a, b, c := Alloc3Desc();
      if !ok {
        return;
      }
      NotHead(free, next, more, own, req, a);
      Format(a, b, c);
      Record(a, buf);
      Enqueue(a, b, c, buf);
    }

    /** The device takes the next entry it has not seen. */
    method DeviceTakes() returns (h: nat)
      requires Valid() && availSeen != availIdx
      modifies this`taken, this`availSeen, this`req
      ensures Valid() && old(taken) < |posted| && h == posted[old(taken)] && taken == old(taken) + 1
      ensures h in old(req) && old(req)[h].phase == Posted && req == old(req)[h := old(req)[h].(phase := Taken)]
    {
      AvailBound(avail, posted, taken, req);
      RingIndex(taken, |posted|);
      AvailTake(avail, posted, taken, req);
      h := avail[availSeen % NUM];
      Rephased(free, next, more, own, req, h, Taken);
      UsedOther(used, done, handled, req, status, h, req[h].(phase := Taken), status[h]);
      assert status[h := status[h]] == status;
      BuffersGoOn(info, busy, req, h, Taken);
      hide Chains, AvailRing, UsedRing, Buffers;
      req := req[h := req[h].(phase := Taken)];
      taken := taken + 1;
      availSeen := (availSeen + 1) % WRAP;
    }

    /** The device finishes any request it has taken. */
    method DeviceCompletes(h: nat)
      requires Valid() && h in req && req[h].phase == Taken
      modifies this`status, this`used, this`usedIdx, this`req, this`done
      ensures Valid() && req == old(req)[h := old(req)[h].(phase := Done)] && done == old(done) + [h]
    {
      hide Chains, AvailRing, UsedRing, Buffers;
      Sizes(free, next, more, own, avail, posted, taken, used, done, handled, req, status, info, busy);
      UsedBound(used, done, handled, req, status);
      RingIndex(handled, |done|);
      UsedPut(used, done, handled, req, status, h);
      Rephased(free, next, more, own, req, h, Done);
      AvailOther(avail, posted, taken, req, h, req[h].(phase := Done));
      BuffersGoOn(info, busy, req, h, Done);
      status := status[h := 0];
      used := used[usedIdx % NUM := h];
      usedIdx := (usedIdx + 1) % WRAP;
      req := req[h := req[h].(phase := Done)];
      done := done + [h];
    }

    /** One round of `virtio_disk_intr`: the flag of the buffer this completion was issued for
        is cleared. */
    method Acknowledge() returns (buf: nat)
      requires Valid() && usedSeen != usedIdx
      modifies this`busy, this`usedSeen, this`req, this`handled
      ensures Valid() && old(handled) < |done| && handled == old(handled) + 1
      ensures var h := done[old(handled)]; h in old(req) && buf == old(req)[h].buf && req == old(req)[h := old(req)[h].(phase := Acked)]
      ensures buf in old(busy) && busy == old(busy) - {buf}
    {
      UsedBound(used, done, handled, req, status);
      RingIndex(handled, |done|);
      UsedTake(used, done, handled, req, status);
      var id := used[usedSeen % NUM];
      assert status[id] == 0;   // no "virtio_disk_intr status" panic
      buf := info[id];
      Rephased(free, next, more, own, req, id, Acked);
      AvailOther(avail, posted, taken, req, id, req[id].(phase := Acked));
      BuffersSeen(info, busy, req, id);
      hide Chains, AvailRing, UsedRing, Buffers;
      busy := busy - {buf};
      usedSeen := (usedSeen + 1) % WRAP;
      req := req[id := req[id].(phase := Acked)];
      handled := handled + 1;
    }

    /** `virtio_disk_intr`: every completion so far is handled. */
    method Interrupt()
      requires Valid()
      modifies this`busy, this`usedSeen, this`req, this`handled
      ensures Valid() && handled == |done| && old(handled) <= |done|
      ensures req.Keys == old(req).Keys
      ensures forall k :: old(handled) <= k < |done| ==> done[k] in req && req[done[k]].phase == Acked && req[done[k]].buf !in busy
    {
      hide Chains, AvailRing, UsedRing, Buffers;
      UsedBound(used, done, handled, req, status);
      RingIndex(handled, |done|);
      while usedSeen != usedIdx
        invariant Valid() && old(handled) <= handled <= |done| && req.Keys == old(req).Keys
        invariant usedSeen == usedIdx <==> handled == |done|
        invariant forall k :: old(handled) <= k < handled ==> done[k] in req && req[done[k]].phase == Acked && req[done[k]].buf !in busy
        decreases |done| - handled
      {
        var buf := Acknowledge();
        UsedBound(used, done, handled, req, status);
        RingIndex(handled, |done|);
      }
    }

    /** The last part of `virtio_disk_rw`, once the flag is clear: exactly the three descriptors
        of the chain are freed. */
    method Finish(h: nat)
      requires Valid() && Settled() && h in req && req[h].phase == Acked
      modifies this`free, this`own, this`next, this`more, this`info, this`req
      ensures Valid() && Settled() && req == old(req) - {h}
          && own == old(own)[h := FREE][old(req)[h].mid := FREE][old(req)[h].last := FREE]
    {
      ghost var r := req[h];
      ChainsDrop(free, next, more, own, req, h);
      Finished(avail, posted, taken, used, done, handled, req, status, info, busy, h);
      assert Chain(next, more, own, h, r);
      hide Chains, AvailRing, UsedRing, Buffers;
      info := info[h := 0];
      own := own[h := HELD][r.mid := HELD][r.last := HELD];
      req := req - {h};
      FreeChain(h, r.mid, r.last);
    }

    /** `free_chain`: follows the chain from `i` while the flag says there is more. */
    method FreeChain(i: nat, ghost mid: nat, ghost last: nat)
      requires Valid() && Three(i, mid, last) && |own| == |next| == |more| == NUM
          && own[i] == own[mid] == own[last] == HELD
      requires next[i] == mid && next[mid] == last && more[i] && more[mid] && !more[last]
      modifies this`free, this`own, this`next, this`more
      ensures Valid() && own == old(own)[i := FREE][mid := FREE][last := FREE]
    {
      hide Chains, AvailRing, UsedRing, Buffers;
      var d, go := i, true;
      ghost var k := 0;
      while go
        invariant 0 <= k <= 3 && (go <==> k < 3) && Valid() && |own| == |next| == |more| == NUM
        invariant k < 3 ==> d == [i, mid, last][k]
        invariant k < 3 ==> own[last] == HELD && !more[last]
        invariant k < 2 ==> own[mid] == HELD && more[mid] && next[mid] == last
        invariant k < 1 ==> own[i] == HELD && more[i] && next[i] == mid
        invariant own == if k == 0 then old(own)
                         else if k == 1 then old(own)[i := FREE]
                         else if k == 2 then old(own)[i := FREE][mid := FREE]
                         else old(own)[i := FREE][mid := FREE][last := FREE]
        decreases 3 - k
      {
        var flag, nxt := more[d], next[d];
        FreeDesc(d);
        go := flag;
        d := nxt;
        k := k + 1;
      }
    }
  }
}
