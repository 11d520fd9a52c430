/** The buffer cache: kernel/bio.c. Operations are atomic under `bcache.lock`; a buffer's
    contents change only under its sleep lock. */
module Bio {
  const NBUF: nat := 30
  const HEAD: nat := NBUF    // the list head, beside the NBUF buffers

  datatype Buf<D> = Buf(dev: nat, blockno: nat, refcnt: nat, valid: bool, data: D)

  // ---------- the doubly linked list ----------

  ghost predicate Linked(next: seq<nat>, prev: seq<nat>, order: seq<nat>) {
    && |next| == |prev| == NBUF + 1
    && (forall i :: 0 <= i < |order| ==> order[i] < NBUF)
    && (forall i, j :: 0 <= i < j < |order| ==> order[i] != order[j])
    && (if order == [] then next[HEAD] == HEAD && prev[HEAD] == HEAD
        else next[HEAD] == order[0] && prev[order[0]] == HEAD && next[order[|order| - 1]] == HEAD && prev[HEAD] == order[|order| - 1])
    && (forall i :: 0 <= i < |order| - 1 ==> next[order[i]] == order[i + 1] && prev[order[i + 1]] == order[i])
  }

  /** `b` joins at the front. */
  function PushNext(next: seq<nat>, b: nat): seq<nat>
    requires |next| == NBUF + 1 && b < NBUF
  {
    next[b := next[HEAD]][HEAD := b]
  }

  function PushPrev(next: seq<nat>, prev: seq<nat>, b: nat): seq<nat>
    requires |next| == |prev| == NBUF + 1 && b < NBUF && next[HEAD] <= NBUF
  {
    prev[b := HEAD][next[HEAD] := b]
  }

  lemma Pushed(next: seq<nat>, prev: seq<nat>, order: seq<nat>, b: nat)
    requires Linked(next, prev, order) && b < NBUF && b !in order
    ensures next[HEAD] <= NBUF && Linked(PushNext(next, b), PushPrev(next, prev, b), [b] + order)
  {
    var n2, p2, o2 := PushNext(next, b), PushPrev(next, prev, b), [b] + order;
    assert forall i :: 0 < i < |o2| ==> o2[i] == order[i - 1];
  }

  /** The buffer at place `k` leaves. */
  lemma Unlinked(next: seq<nat>, prev: seq<nat>, order: seq<nat>, k: nat)
    requires Linked(next, prev, order) && k < |order|
    ensures var b := order[k]; prev[b] <= NBUF && next[b] <= NBUF
    ensures var b := order[k]; b !in order[..k] + order[k + 1..]
    ensures var b := order[k]; Linked(next[prev[b] := next[b]], prev[next[b] := prev[b]], order[..k] + order[k + 1..])
  {
    var b, o2 := order[k], order[..k] + order[k + 1..];
    assert next[b] == (if k + 1 == |order| then HEAD else order[k + 1]);
    assert prev[b] == (if k == 0 then HEAD else order[k - 1]) by { if k > 0 { assert prev[order[k - 1 + 1]] == order[k - 1]; } }
    var n2, p2 := next[prev[b] := next[b]], prev[next[b] := prev[b]];
    assert forall i :: 0 <= i < |o2| ==> o2[i] == order[if i < k then i else i + 1];
    forall i | 0 <= i < |o2| - 1 ensures n2[o2[i]] == o2[i + 1] && p2[o2[i + 1]] == o2[i] {
      UnlinkedAt(next, prev, order, k, i);
    }
  }

  lemma UnlinkedAt(next: seq<nat>, prev: seq<nat>, order: seq<nat>, k: nat, i: nat)
    requires Linked(next, prev, order) && k < |order| && i + 2 < |order|
    ensures var b := order[k]; prev[b] <= NBUF && next[b] <= NBUF
    ensures var b, x, y := order[k], order[if i < k then i else i + 1], order[if i + 1 < k then i + 1 else i + 2];
            next[prev[b] := next[b]][x] == y && prev[next[b] := prev[b]][y] == x
  {
    var b, j := order[k], if i < k then i else i + 1;
    assert k + 1 < |order| ==> next[b] == order[k + 1];
    assert k > 0 ==> next[order[k - 1]] == order[k - 1 + 1] && prev[order[k - 1 + 1]] == order[k - 1];
    assert next[order[j]] == order[j + 1] && prev[order[j + 1]] == order[j];
  }

  lemma FrontOrder(order: seq<nat>, i: nat, b: nat)
    requires i < |order|
    ensures [b] + (order[..i] + order[i + 1..]) == [b] + order[..i] + order[i + 1..]
  {
  }

  /** Leaving and joining again at the front. */
  lemma Fronted(next: seq<nat>, prev: seq<nat>, order: seq<nat>, k: nat)
    requires Linked(next, prev, order) && k < |order|
    ensures var b := order[k]; |next| == |prev| == NBUF + 1 && b < NBUF && prev[b] <= NBUF && next[b] <= NBUF && b !in order[..k] + order[k + 1..]
    ensures var b := order[k]; var n1, p1 := next[prev[b] := next[b]], prev[next[b] := prev[b]];
            n1[HEAD] <= NBUF && Linked(PushNext(n1, b), PushPrev(n1, p1, b), [b] + (order[..k] + order[k + 1..]))
  {
    var b := order[k];
    Unlinked(next, prev, order, k);
    Pushed(next[prev[b] := next[b]], prev[next[b] := prev[b]], order[..k] + order[k + 1..], b);
  }

  // ---------- contents ----------

  datatype Key = Key(dev: nat, blockno: nat)

  predicate Holds<D>(b: Buf<D>, k: Key) {
    b.dev == k.dev && b.blockno == k.blockno
  }

  /** At most one buffer for each block of a real device. */
  ghost predicate Unique<D(!new)>(bufs: seq<Buf<D>>) {
    forall i, j, k :: 0 <= i < |bufs| && 0 <= j < |bufs| && Holds(bufs[i], k) && Holds(bufs[j], k) && k.dev != 0 ==> i == j
  }

  /** Buffers that may be recycled agree with the disk. */
  ghost predicate Clean<D(!new)>(bufs: seq<Buf<D>>, disk: map<Key, D>) {
    forall i, k :: 0 <= i < |bufs| && Holds(bufs[i], k) && k in disk && k.dev != 0 && bufs[i].refcnt == 0 && bufs[i].valid ==> bufs[i].data == disk[k]
  }

  /** The current contents of a block: in its buffer if there is a valid one, else on disk. */
  ghost function Block<D(!new)>(bufs: seq<Buf<D>>, disk: map<Key, D>, k: Key): D
    requires k in disk
  {
    if i :| 0 <= i < |bufs| && Holds(bufs[i], k) && bufs[i].valid then bufs[i].data else disk[k]
  }

  lemma BlockIn<D(!new)>(bufs: seq<Buf<D>>, disk: map<Key, D>, k: Key, i: nat)
    requires k in disk && k.dev != 0 && Unique(bufs) && i < |bufs| && Holds(bufs[i], k)
    ensures Block(bufs, disk, k) == if bufs[i].valid then bufs[i].data else disk[k]
  {
  }

  /** One buffer replaced: a block whose buffer did not come or go has the same contents. */
  lemma BlockSame<D(!new)>(bufs: seq<Buf<D>>, disk: map<Key, D>, b: nat, x: Buf<D>, k: Key)
    requires k in disk && k.dev != 0 && b < |bufs| && Unique(bufs) && Unique(bufs[b := x])
    requires Holds(bufs[b], k) && bufs[b].valid ==> (if Holds(x, k) && x.valid then x.data else disk[k]) == bufs[b].data
    requires Holds(x, k) && x.valid ==> x.data == if Holds(bufs[b], k) && bufs[b].valid then bufs[b].data else disk[k]
    requires Holds(x, k) && !Holds(bufs[b], k) ==> forall i :: 0 <= i < |bufs| ==> !Holds(bufs[i], k)
    ensures Block(bufs[b := x], disk, k) == Block(bufs, disk, k)
  {
    var bs := bufs[b := x];
    if i :| 0 <= i < |bufs| && Holds(bufs[i], k) {
      BlockIn(bufs, disk, k, i);
      if i != b || Holds(x, k) { BlockIn(bs, disk, k, i); }
    } else if Holds(x, k) {
      assert Holds(bs[b], k);
      BlockIn(bs, disk, k, b);
    }
  }

  /** Recycling a valid buffer keeps its block's contents exactly when the buffer was written. */
  lemma RecycleExact<D(!new)>(bufs: seq<Buf<D>>, disk: map<Key, D>, b: nat, k: Key, q: Key)
    requires b < |bufs| && Unique(bufs) && Holds(bufs[b], q) && bufs[b].valid && q in disk && q.dev != 0 && k != q
    ensures Block(bufs[b := Buf(k.dev, k.blockno, 1, false, bufs[b].data)], disk, q) == Block(bufs, disk, q) <==> bufs[b].data == disk[q]
  {
    BlockIn(bufs, disk, q, b);
  }

  /** The most recently released buffer comes first. */
  ghost predicate Sorted(order: seq<nat>, stamp: seq<nat>, clock: nat) {
    && |stamp| == NBUF && (forall i :: 0 <= i < |order| ==> order[i] < NBUF && stamp[order[i]] < clock)
    && forall i, j :: 0 <= i < j < |order| ==> stamp[order[i]] > stamp[order[j]]
  }

  ghost predicate Complete(order: seq<nat>) {
    |order| == NBUF && forall b: nat :: b < NBUF ==> b in order
  }

  lemma CompleteAt(order: seq<nat>, b: nat)
    requires Complete(order) && b < NBUF
    ensures b in order && |order| == NBUF
  {
  }

  lemma Place<T>(s: seq<T>, x: T) returns (i: nat)
    requires x in s
    ensures i < |s| && s[i] == x
  {
    i :| 0 <= i < |s| && s[i] == x;
  }

  /** Every block has the contents it had. */
  ghost predicate SameBlocks<D(!new)>(bufs: seq<Buf<D>>, disk: map<Key, D>, bufs2: seq<Buf<D>>, disk2: map<Key, D>) {
    disk2.Keys == disk.Keys && forall k :: k in disk && k.dev != 0 ==> Block(bufs2, disk2, k) == Block(bufs, disk, k)
  }

  /** A count changes; if it drops to zero the buffer must agree with the disk. */
  lemma Recounted<D(!new)>(bufs: seq<Buf<D>>, disk: map<Key, D>, b: nat, n: nat)
    requires b < |bufs| && Unique(bufs) && Clean(bufs, disk)
    requires n == 0 && bufs[b].valid && bufs[b].dev != 0 && Key(bufs[b].dev, bufs[b].blockno) in disk ==>
               bufs[b].data == disk[Key(bufs[b].dev, bufs[b].blockno)]
    ensures var bs := bufs[b := bufs[b].(refcnt := n)]; Unique(bs) && Clean(bs, disk) && SameBlocks(bufs, disk, bs, disk)
  {
    var x := bufs[b].(refcnt := n);
    var bs := bufs[b := x];
    assert forall i, k :: 0 <= i < |bufs| ==> (Holds(bs[i], k) <==> Holds(bufs[i], k));
    forall k | k in disk && k.dev != 0 ensures Block(bs, disk, k) == Block(bufs, disk, k) {
      BlockSame(bufs, disk, b, x, k);
    }
  }

  /** An unused buffer is given to a block that no buffer holds. */
  lemma Recycled<D(!new)>(bufs: seq<Buf<D>>, disk: map<Key, D>, b: nat, k: Key)
    requires b < |bufs| && Unique(bufs) && Clean(bufs, disk) && bufs[b].refcnt == 0 && k.dev != 0
    requires forall i :: 0 <= i < |bufs| ==> !Holds(bufs[i], k)
    ensures var bs := bufs[b := Buf(k.dev, k.blockno, 1, false, bufs[b].data)]; Unique(bs) && Clean(bs, disk) && SameBlocks(bufs, disk, bs, disk)
  {
    var x := Buf(k.dev, k.blockno, 1, false, bufs[b].data);
    var bs := bufs[b := x];
    assert forall q :: Holds(x, q) ==> q == k;
    forall q | q in disk && q.dev != 0 ensures Block(bs, disk, q) == Block(bufs, disk, q) {
      BlockSame(bufs, disk, b, x, q);
    }
  }

  lemma Loaded<D(!new)>(bufs: seq<Buf<D>>, disk: map<Key, D>, b: nat, k: Key)
    requires b < |bufs| && Unique(bufs) && Clean(bufs, disk) && Holds(bufs[b], k) && !bufs[b].valid && k.dev != 0
        && k in disk && bufs[b].refcnt > 0
    ensures var bs := bufs[b := bufs[b].(data := disk[k], valid := true)]; Unique(bs) && Clean(bs, disk) && SameBlocks(bufs, disk, bs, disk)
  {
    var x := bufs[b].(data := disk[k], valid := true);
    var bs := bufs[b := x];
    assert forall i, q :: 0 <= i < |bufs| ==> (Holds(bs[i], q) <==> Holds(bufs[i], q));
    forall q | q in disk && q.dev != 0 ensures Block(bs, disk, q) == Block(bufs, disk, q) {
      BlockSame(bufs, disk, b, x, q);
    }
  }

  lemma Changed<D(!new)>(bufs: seq<Buf<D>>, disk: map<Key, D>, b: nat, k: Key, d: D)
    requires b < |bufs| && Unique(bufs) && Clean(bufs, disk) && Holds(bufs[b], k) && bufs[b].valid && k.dev != 0
        && k in disk && bufs[b].refcnt > 0
    ensures var bs := bufs[b := bufs[b].(data := d)]; Unique(bs) && Clean(bs, disk) && Block(bs, disk, k) == d
    ensures var bs := bufs[b := bufs[b].(data := d)]; forall q :: q in disk && q.dev != 0 && q != k ==> Block(bs, disk, q) == Block(bufs, disk, q)
  {
    var x := bufs[b].(data := d);
    var bs := bufs[b := x];
    assert forall i, q :: 0 <= i < |bufs| ==> (Holds(bs[i], q) <==> Holds(bufs[i], q));
    BlockIn(bs, disk, k, b);
    forall q | q in disk && q.dev != 0 && q != k ensures Block(bs, disk, q) == Block(bufs, disk, q) {
      BlockSame(bufs, disk, b, x, q);
    }
  }

  lemma Written<D(!new)>(bufs: seq<Buf<D>>, disk: map<Key, D>, b: nat, k: Key)
    requires b < |bufs| && Unique(bufs) && Clean(bufs, disk) && Holds(bufs[b], k) && bufs[b].valid && k.dev != 0
        && k in disk
    ensures Clean(bufs, disk[k := bufs[b].data]) && SameBlocks(bufs, disk, bufs, disk[k := bufs[b].data])
  {
    var d2 := disk[k := bufs[b].data];
    forall q | q in disk && q.dev != 0 ensures Block(bufs, d2, q) == Block(bufs, disk, q) {
      if i :| 0 <= i < |bufs| && Holds(bufs[i], q) {
        BlockIn(bufs, disk, q, i);
        BlockIn(bufs, d2, q, i);
      }
    }
  }

  /** Moving the buffer at place `i` to the front with a new stamp keeps the order. */
  lemma MovedFront(order: seq<nat>, stamp: seq<nat>, clock: nat, i: nat)
    requires Complete(order) && Sorted(order, stamp, clock) && i < |order|
    requires order[i] !in order[..i] + order[i + 1..] && |stamp| == NBUF && order[i] < NBUF
    ensures var o2 := [order[i]] + (order[..i] + order[i + 1..]); Complete(o2) && Sorted(o2, stamp[order[i] := clock], clock + 1)
  {
    var b, rest := order[i], order[..i] + order[i + 1..];
    var o2 := [b] + rest;
    assert forall j :: 0 <= j < |rest| ==> rest[j] == order[if j < i then j else j + 1] && rest[j] != b;
    forall x: nat | x < NBUF ensures x in o2 {
      var j := Place(order, x);
      if j != i { assert o2[if j < i then j + 1 else j] == x; }
    }
  }

  /** The list holds exactly the first `n` buffers. */
  ghost predicate First(order: seq<nat>, n: nat) {
    |order| == n && (forall b: nat :: b < n ==> b in order) && forall i :: 0 <= i < |order| ==> order[i] < n
  }

  lemma JoinedFront(order: seq<nat>, stamp: seq<nat>, b: nat)
    requires Sorted(order, stamp, b) && First(order, b) && b < NBUF
    ensures b !in order && Sorted([b] + order, stamp[b := b], b + 1) && First([b] + order, b + 1)
  {
  }

  class Cache<D(!new)> {
    var bufs: seq<Buf<D>>
    var next: seq<nat>
    var prev: seq<nat>
    var disk: map<Key, D>
    ghost var order: seq<nat>    // the list from the head
    ghost var stamp: seq<nat>    // when each buffer was last released for good
    ghost var clock: nat

    ghost predicate Listed()
      reads this
    {
      Linked(next, prev, order) && Complete(order) && Sorted(order, stamp, clock)
    }

    ghost predicate Valid()
      reads this
    {
      |bufs| == NBUF && Listed() && Unique(bufs) && Clean(bufs, disk)
    }

    constructor (junk: D, disk: map<Key, D>)
      ensures Valid() && this.disk == disk && forall k :: k in disk && k.dev != 0 ==> Block(bufs, disk, k) == disk[k]
    {
      this.disk := disk;
      bufs := seq(NBUF, _ => Buf(0, 0, 0, false, junk));
      next, prev := seq(NBUF + 1, _ => HEAD), seq(NBUF + 1, _ => HEAD);
      order, clock, stamp := [], 0, seq(NBUF, _ => 0);
      new;
      Link();
    }

    /** The loop of `binit`: each buffer joins the list at the front. */
    method Link()
      requires Linked(next, prev, []) && |stamp| == NBUF
      modifies this`next, this`prev, this`order, this`stamp, this`clock
      ensures Listed()
    {
      order := [];
      var b := 0;
      while b < NBUF
        invariant b <= NBUF && Linked(next, prev, order) && Sorted(order, stamp, b) && First(order, b)
      {
        JoinedFront(order, stamp, b);
        Pushed(next, prev, order, b);
        hide Linked, Sorted, First;
        next, prev := PushNext(next, b), PushPrev(next, prev, b);
        stamp := stamp[b := b];
        order := [b] + order;
        b := b + 1;
      }
      clock := NBUF;
    }

    /** The buffer that holds a block, or NBUF. */
    method Find(k: Key) returns (b: nat)
      requires Valid()
      ensures b <= NBUF && (b < NBUF ==> Holds(bufs[b], k)) && (b == NBUF ==> forall i :: 0 <= i < NBUF ==> !Holds(bufs[i], k))
    {
      b := next[HEAD];
      ghost var i := 0;
      while b != HEAD
        invariant 0 <= i <= NBUF && b == (if i == NBUF then HEAD else order[i])
        invariant forall j :: 0 <= j < i ==> !Holds(bufs[order[j]], k)
        decreases NBUF - i
      {
        if Holds(bufs[b], k) {
          return;
        }
        b := next[b];
        i := i + 1;
      }
      forall x: nat | x < NBUF ensures !Holds(bufs[x], k) {
        ghost var j := Place(order, x);
      }
    }

    /** The unused buffer released longest ago, or NBUF. */
    method Oldest() returns (b: nat)
      requires Valid()
      ensures b <= NBUF && (b < NBUF ==> bufs[b].refcnt == 0 && forall i :: 0 <= i < NBUF && bufs[i].refcnt == 0 ==> stamp[b] <= stamp[i])
      ensures b == NBUF ==> forall i :: 0 <= i < NBUF ==> bufs[i].refcnt > 0
    {
      b := prev[HEAD];
      ghost var i := NBUF - 1;
      while b != HEAD
        invariant -1 <= i < NBUF && b == (if i == -1 then HEAD else order[i])
        invariant forall j :: i < j < NBUF ==> bufs[order[j]].refcnt > 0
        decreases i
      {
        if bufs[b].refcnt == 0 {
          forall x: nat | x < NBUF && bufs[x].refcnt == 0 ensures stamp[b] <= stamp[x] {
            ghost var j := Place(order, x);
          }
          return;
        }
        assert i > 0 ==> prev[order[i - 1 + 1]] == order[i - 1];
        b := prev[b];
        i := i - 1;
      }
      forall x: nat | x < NBUF ensures bufs[x].refcnt > 0 {
        ghost var j := Place(order, x);
      }
    }

    method Bget(k: Key) returns (b: nat)
      requires Valid() && k.dev != 0 && k in disk
      requires exists i :: 0 <= i < NBUF && (Holds(bufs[i], k) || bufs[i].refcnt == 0)
      modifies this`bufs
      ensures Valid() && b < NBUF && Holds(bufs[b], k) && SameBlocks(old(bufs), disk, bufs, disk)
      ensures bufs == old(bufs)[b := bufs[b]]
      ensures if old(Holds(bufs[b], k)) then bufs[b] == old(bufs[b]).(refcnt := old(bufs[b]).refcnt + 1)
              else bufs[b].refcnt == 1 && !bufs[b].valid && old(bufs[b]).refcnt == 0
      ensures !old(Holds(bufs[b], k)) ==> forall i :: 0 <= i < NBUF && old(bufs[i]).refcnt == 0 ==> stamp[b] <= stamp[i]
    {
      b := Find(k);
      if b < NBUF {
        Recounted(bufs, disk, b, bufs[b].refcnt + 1);
        bufs := bufs[b := bufs[b].(refcnt := bufs[b].refcnt + 1)];
        return;
      }
      b := Oldest();
      Recycled(bufs, disk, b, k);
      bufs := bufs[b := Buf(k.dev, k.blockno, 1, false, bufs[b].data)];
    }

    /** `bread`: a buffer with the current contents of the block. */
    method Bread(k: Key) returns (b: nat)
      requires Valid() && k.dev != 0 && k in disk
      requires exists i :: 0 <= i < NBUF && (Holds(bufs[i], k) || bufs[i].refcnt == 0)
      modifies this`bufs
      ensures Valid() && b < NBUF && Holds(bufs[b], k) && bufs[b].valid && bufs[b].refcnt > 0
      ensures bufs[b].data == Block(old(bufs), disk, k) && SameBlocks(old(bufs), disk, bufs, disk)
    {
      b := Bget(k);
      BlockIn(bufs, disk, k, b);
      if !bufs[b].valid {
        Loaded(bufs, disk, b, k);
        bufs := bufs[b := bufs[b].(data := disk[k], valid := true)];
        BlockIn(bufs, disk, k, b);
      }
    }

    /** The holder of the buffer changes its contents. */
    method Modify(b: nat, k: Key, d: D)
      requires Valid() && b < NBUF && bufs[b].refcnt > 0 && bufs[b].valid && Holds(bufs[b], k) && k.dev != 0
          && k in disk
      modifies this`bufs
      ensures Valid() && bufs == old(bufs)[b := old(bufs)[b].(data := d)]
      ensures Block(bufs, disk, k) == d && forall q :: q in disk && q.dev != 0 && q != k ==> Block(bufs, disk, q) == Block(old(bufs), disk, q)
    {
      Changed(bufs, disk, b, k, d);
      bufs := bufs[b := bufs[b].(data := d)];
    }

    method Bwrite(b: nat, k: Key)
      requires Valid() && b < NBUF && bufs[b].valid && Holds(bufs[b], k) && k.dev != 0 && k in disk
      modifies this`disk
      ensures Valid() && disk == old(disk)[k := bufs[b].data] && SameBlocks(bufs, old(disk), bufs, disk)
    {
      Written(bufs, disk, b, k);
      disk := disk[k := bufs[b].data];
    }

    /** `brelse`: at count zero the buffer moves to the front of the list, and it must have
        been written if it was changed. */
    method Brelse(b: nat, k: Key)
      requires Valid() && b < NBUF && bufs[b].refcnt > 0 && Holds(bufs[b], k) && k.dev != 0 && k in disk
      requires bufs[b].refcnt == 1 && bufs[b].valid ==> bufs[b].data == disk[k]
      modifies this`bufs, this`next, this`prev, this`order, this`stamp, this`clock
      ensures Valid() && bufs == old(bufs)[b := old(bufs)[b].(refcnt := old(bufs)[b].refcnt - 1)]
          && SameBlocks(old(bufs), disk, bufs, disk)
      ensures bufs[b].refcnt > 0 ==> order == old(order) && stamp == old(stamp)
      ensures bufs[b].refcnt == 0 ==> order[0] == b
      ensures bufs[b].refcnt == 0 ==>
                exists i :: 0 <= i < NBUF && old(order)[i] == b && order == [b] + old(order)[..i] + old(order)[i + 1..]
    {
      Recounted(bufs, disk, b, bufs[b].refcnt - 1);
      bufs := bufs[b := bufs[b].(refcnt := bufs[b].refcnt - 1)];
      if bufs[b].refcnt == 0 {
        MoveToFront(b);
      }
    }

    method MoveToFront(b: nat)
      requires Listed() && b < NBUF
      modifies this`next, this`prev, this`order, this`stamp, this`clock
      ensures Listed() && order[0] == b
      ensures exists i :: 0 <= i < NBUF && old(order)[i] == b && order == [b] + old(order)[..i] + old(order)[i + 1..]
    {
      CompleteAt(order, b);
      hide Linked, Sorted, Complete, PushNext, PushPrev;
      ghost var i := Place(order, b);
      Fronted(next, prev, order, i);
      MovedFront(order, stamp, clock, i);
      var n, p := next[b], prev[b];
      prev := prev[n := p];
      next := next[p := n];
      next, prev := PushNext(next, b), PushPrev(next, prev, b);
      FrontOrder(order, i, b);
      order := [b] + (order[..i] + order[i + 1..]);
      stamp := stamp[b := clock];
      clock := clock + 1;
    }

    method Bpin(b: nat)
      requires Valid() && b < NBUF
      modifies this`bufs
      ensures Valid() && bufs == old(bufs)[b := old(bufs)[b].(refcnt := old(bufs)[b].refcnt + 1)]
          && SameBlocks(old(bufs), disk, bufs, disk)
    {
      Recounted(bufs, disk, b, bufs[b].refcnt + 1);
      bufs := bufs[b := bufs[b].(refcnt := bufs[b].refcnt + 1)];
    }

    method Bunpin(b: nat, k: Key)
      requires Valid() && b < NBUF && bufs[b].refcnt > 0 && Holds(bufs[b], k) && k.dev != 0 && k in disk
      requires bufs[b].refcnt == 1 && bufs[b].valid ==> bufs[b].data == disk[k]
      modifies this`bufs
      ensures Valid() && bufs == old(bufs)[b := old(bufs)[b].(refcnt := old(bufs)[b].refcnt - 1)]
          && SameBlocks(old(bufs), disk, bufs, disk)
    {
      Recounted(bufs, disk, b, bufs[b].refcnt - 1);
      bufs := bufs[b := bufs[b].(refcnt := bufs[b].refcnt - 1)];
    }
  }
}
