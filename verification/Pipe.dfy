/** Pipes: kernel/pipe.c. A call of `pipewrite` or `piperead` is a series of turns under the
    pipe's lock, with sleeps between them in which other readers and writers take turns. */
module Pipe {
  import opened Blocks

  const PIPESIZE: nat := 512
  const UINT: nat := 0x1_0000_0000   // `nread` and `nwrite` are 32-bit and wrap around

  /** How a turn ends: the call returns, or the process sleeps and will take another turn. */
  datatype End = Returns(value: int) | Sleeps

  /** Wrapped counters that differ by at most the size of the pipe tell how full it is. */
  lemma Counters(r: nat, w: nat)
    requires r <= w <= r + PIPESIZE
    ensures w % UINT == r % UINT <==> w == r
    ensures w % UINT == (r % UINT + PIPESIZE) % UINT <==> w == r + PIPESIZE
    ensures w % UINT % PIPESIZE == w % PIPESIZE && r % UINT % PIPESIZE == r % PIPESIZE
    ensures (w % UINT + 1) % UINT == (w + 1) % UINT && (r % UINT + 1) % UINT == (r + 1) % UINT
  {
    Wrap(w);
    Wrap(r);
    Plus(r, w - r);
    Plus(r, PIPESIZE);
    Plus(r, 1);
    Plus(w, 1);
    PlusRem(r);
  }

  /** Adding less than a whole wrap to a wrapped counter. */
  lemma Plus(x: nat, d: nat)
    requires d <= PIPESIZE
    ensures (x + d) % UINT == if x % UINT + d < UINT then x % UINT + d else x % UINT + d - UINT
  {
    assert x + d == UINT * (x / UINT) + (x % UINT + d);
  }

  lemma PlusRem(r: nat)
    ensures (r % UINT + PIPESIZE) % UINT == (r + PIPESIZE) % UINT
    ensures forall x: nat :: (x % UINT + 1) % UINT == (x + 1) % UINT
  {
  }

  lemma Wrap(x: nat)
    ensures x % UINT % PIPESIZE == x % PIPESIZE
  {
    var q := x / UINT;
    assert x == PIPESIZE * (8388608 * q) + x % UINT;
    Chunk(8388608 * q, x % UINT);
  }

  lemma Chunk(q: nat, r: nat)
    ensures (PIPESIZE * q + r) % PIPESIZE == r % PIPESIZE
  {
  }

  /** Two places less than a pipe full apart are different slots of the ring. */
  lemma Apart(a: nat, b: nat)
    requires a < b < a + PIPESIZE
    ensures a % PIPESIZE != b % PIPESIZE
  {
  }

  lemma SliceNext(s: seq<byte>, src: seq<byte>, i: nat, j: nat)
    requires i <= j < |src|
    ensures s + src[i..j] + [src[j]] == s + src[i..j + 1]
  {
  }

  lemma PrefixTail(s: seq<byte>, a: seq<byte>, b: seq<byte>)
    requires s + a <= s + b
    ensures a <= b
  {
    assert |a| <= |b|;
    forall i | 0 <= i < |a| ensures a[i] == b[i] {
      assert (s + a)[|s| + i] == (s + b)[|s| + i];
    }
  }

  class Ring {
    const data: array<byte>
    var nread: nat
    var nwrite: nat
    var readopen: bool
    var writeopen: bool
    ghost var stored: seq<byte>      // every byte ever put in
    ghost var delivered: seq<byte>   // every byte ever handed to a reader

    /** Delivered bytes are a prefix of the stored ones; the rest, at most a pipe full, is in
        the ring in order. */
    ghost predicate Valid()
      reads this, data
    {
      && data.Length == PIPESIZE
      && |delivered| <= |stored| <= |delivered| + PIPESIZE && delivered == stored[..|delivered|]
      && nread == |delivered| % UINT && nwrite == |stored| % UINT
      && forall k :: |delivered| <= k < |stored| ==> data[k % PIPESIZE] == stored[k]
    }

    constructor ()
      ensures Valid() && fresh(data) && stored == [] && delivered == [] && readopen && writeopen
    {
      data := new byte[PIPESIZE];
      nread, nwrite, readopen, writeopen := 0, 0, true, true;
      stored, delivered := [], [];
    }

    method Put(ch: byte)
      requires Valid() && |stored| < |delivered| + PIPESIZE
      modifies this`nwrite, this`stored, data
      ensures Valid() && stored == old(stored) + [ch]
    {
      Counters(|delivered|, |stored|);
      forall k | |delivered| <= k < |stored| ensures k % PIPESIZE != |stored| % PIPESIZE {
        Apart(k, |stored|);
      }
      data[nwrite % PIPESIZE] := ch;
      nwrite := (nwrite + 1) % UINT;
      stored := stored + [ch];
      assert delivered == stored[..|delivered|];
    }

    method Get() returns (ch: byte)
      requires Valid() && |delivered| < |stored|
      ensures ch == stored[|delivered|]
    {
      Counters(|delivered|, |stored|);
      ch := data[nread % PIPESIZE];
    }

    method Drop()
      requires Valid() && |delivered| < |stored|
      modifies this`nread, this`delivered
      ensures Valid() && delivered == old(delivered) + [stored[|old(delivered)|]]
    {
      Counters(|delivered|, |stored|);
      nread := (nread + 1) % UINT;
      delivered := delivered + [stored[|delivered|]];
    }

    /** One turn of `pipewrite(src)`, which has stored `i` bytes so far. Bytes from `limit` on
        cannot be read from user memory; the process is found killed once `kill` bytes have
        been stored. */
    method WriteTurn(src: seq<byte>, i: nat, limit: nat, kill: nat) returns (end: End, j: nat)
      requires Valid() && i <= |src|
      modifies this`nwrite, this`stored, data
      ensures Valid() && i <= j <= |src| && stored == old(stored) + src[i..j]
      ensures end == Sleeps ==> |stored| == |delivered| + PIPESIZE && j < |src| && j < kill && readopen
      ensures end.Returns? ==> (end.value == j && (j == |src| || j >= limit)) || (end.value == -1 && j < |src| && (j >= kill || (!readopen && j == i)))
      ensures j > i ==> readopen && j <= limit && j <= kill
    {
      j := i;
      while j < |src|
        invariant i <= j <= |src| && Valid() && stored == old(stored) + src[i..j]
        invariant j > i ==> readopen && j <= limit && j <= kill
      {
        if !readopen || j >= kill {
          return Returns(-1), j;
        }
        Counters(|delivered|, |stored|);
        if nwrite == (nread + PIPESIZE) % UINT {
          return Sleeps, j;
        }
        if j >= limit {
          break;
        }
        SliceNext(old(stored), src, i, j);
        Put(src[j]);
        j := j + 1;
      }
      end := Returns(j);
    }

    /** One turn of `piperead`: what was copied out before the pipe was empty, the count was
        reached or a copy failed. */
    method ReadTurn(n: nat, copies: nat, killed: bool) returns (end: End, got: seq<byte>)
      requires Valid()
      modifies this`nread, this`delivered
      ensures Valid() && delivered == old(delivered) + got && |got| <= n
      ensures end == Sleeps || end == Returns(-1) ==> got == []
      ensures end == Sleeps ==> |stored| == |delivered| && writeopen && !killed
      ensures end == Returns(-1) ==> (|stored| == |delivered| && writeopen && killed) || (copies == 0 && n > 0 && |stored| > |delivered|)
      ensures end.Returns? && end.value != -1 ==> end.value == |got| && (|got| == n || |stored| == |delivered| || |got| == copies)
    {
      got := [];
      Counters(|delivered|, |stored|);
      if nread == nwrite && writeopen {
        if killed {
          return Returns(-1), got;
        }
        return Sleeps, got;
      }
      while |got| < n
        invariant |got| <= n && |got| <= copies && Valid() && delivered == old(delivered) + got
      {
        Counters(|delivered|, |stored|);
        if nread == nwrite {
          break;
        }
        var ch := Get();
        if |got| == copies {
          if |got| == 0 {
            return Returns(-1), got;
          }
          break;
        }
        Drop();
        got := got + [ch];
      }
      end := Returns(|got|);
    }
  }

  // ---------- calls and their turns ----------

  /** A call of `pipewrite`: how many bytes it has stored, and whether it has returned. */
  datatype Call = Call(count: nat, end: End)

  /** One turn of call number `w` of `pipewrite`, or by some reader. */
  datatype Turn = WriteOf(w: nat, limit: nat, kill: nat) | ReadOf(n: nat, copies: nat, killed: bool) | CloseRead | CloseWrite

  /** The bytes of `sent` that call `w` has stored, `who` naming the call for each. */
  ghost function Only(sent: seq<byte>, who: seq<nat>, w: nat): seq<byte>
    requires |who| == |sent|
  {
    if sent == [] then []
    else Only(sent[..|sent| - 1], who[..|who| - 1], w) + if who[|who| - 1] == w then [sent[|sent| - 1]] else []
  }

  lemma {:induction false} OnlyMore(sent: seq<byte>, who: seq<nat>, more: seq<byte>, v: nat, w: nat)
    requires |who| == |sent|
    ensures Only(sent + more, who + seq(|more|, _ => v), w) == Only(sent, who, w) + if v == w then more else []
  {
    if more == [] {
      assert sent + more == sent && who + seq(|more|, _ => v) == who;
    } else {
      var m := more[..|more| - 1];
      OnlyMore(sent, who, m, v, w);
      assert (sent + more)[..|sent + more| - 1] == sent + m;
      assert (who + seq(|more|, _ => v))[..|sent + more| - 1] == who + seq(|m|, _ => v);
      assert m + [more[|more| - 1]] == more;
    }
  }

  /** What one call of `pipewrite(src)` has stored, in order and with other bytes perhaps in
      between, is a prefix of `src`; when it returns it returns the length of that, or -1. */
  ghost predicate Honest(src: seq<byte>, call: Call, sent: seq<byte>, who: seq<nat>, w: nat)
    requires |who| == |sent|
  {
    && call.count <= |src| && Only(sent, who, w) == src[..call.count]
    && (call.end.Returns? ==> call.end.value == call.count || (call.end.value == -1 && call.count < |src|))
  }

  lemma HonestStart(srcs: seq<seq<byte>>, calls: seq<Call>)
    requires |calls| == |srcs| && forall w :: 0 <= w < |calls| ==> calls[w] == Call(0, Sleeps)
    ensures forall w :: 0 <= w < |srcs| ==> Honest(srcs[w], calls[w], [], [], w)
  {
  }

  /** A turn of call `v` that takes it from `calls[v].count` to `j` bytes. */
  lemma HonestTurn(srcs: seq<seq<byte>>, calls: seq<Call>, sent: seq<byte>, who: seq<nat>, v: nat, j: nat, end: End)
    requires |calls| == |srcs| && |who| == |sent| && v < |srcs| && calls[v].count <= j <= |srcs[v]|
    requires forall w :: 0 <= w < |srcs| ==> Honest(srcs[w], calls[w], sent, who, w)
    requires end.Returns? ==> end.value == j || (end.value == -1 && j < |srcs[v]|)
    ensures var more := srcs[v][calls[v].count..j];
            forall w :: 0 <= w < |srcs| ==> Honest(srcs[w], calls[v := Call(j, end)][w], sent + more, who + seq(|more|, _ => v), w)
  {
    var more := srcs[v][calls[v].count..j];
    forall w | 0 <= w < |srcs| ensures Honest(srcs[w], calls[v := Call(j, end)][w], sent + more, who + seq(|more|, _ => v), w) {
      OnlyMore(sent, who, more, v, w);
      assert Honest(srcs[w], calls[w], sent, who, w);
      assert v == w ==> srcs[v][..calls[v].count] + more == srcs[v][..j];
    }
  }

  /** A pipe is a queue: through any interleaving of the turns of any calls, what readers have
      received is a prefix of what writers have stored, at most a pipe full is in between, and
      what writers have stored is, call by call, what each was given. */
  method Interleave(ring: Ring, srcs: seq<seq<byte>>, turns: seq<Turn>)
    returns (sent: seq<byte>, received: seq<byte>, calls: seq<Call>, ghost who: seq<nat>)
    requires ring.Valid()
    modifies ring, ring.data
    ensures ring.Valid() && ring.stored == old(ring.stored) + sent && ring.delivered == old(ring.delivered) + received
    ensures old(ring.delivered) == old(ring.stored) ==> received <= sent && |sent| - |received| <= PIPESIZE
    ensures |calls| == |srcs| && |who| == |sent| && forall w :: 0 <= w < |srcs| ==> Honest(srcs[w], calls[w], sent, who, w)
  {
    hide Honest;
    sent, received, who := [], [], [];
    calls := seq(|srcs|, _ => Call(0, Sleeps));
    HonestStart(srcs, calls);
    for t := 0 to |turns|
      invariant ring.Valid() && ring.stored == old(ring.stored) + sent
          && ring.delivered == old(ring.delivered) + received
      invariant |calls| == |srcs| && |who| == |sent| && forall w :: 0 <= w < |srcs| ==> calls[w].count <= |srcs[w]|
      invariant forall w :: 0 <= w < |srcs| ==> Honest(srcs[w], calls[w], sent, who, w)
    {
      match turns[t] {
        case WriteOf(w, limit, kill) =>
          if w < |calls| && calls[w].end == Sleeps {
            var end, j := ring.WriteTurn(srcs[w], calls[w].count, limit, kill);
            HonestTurn(srcs, calls, sent, who, w, j, end);
            who := who + seq(|srcs[w][calls[w].count..j]|, _ => w);
            sent := sent + srcs[w][calls[w].count..j];
            calls := calls[w := Call(j, end)];
          }
        case ReadOf(n, copies, killed) =>
          var _, got := ring.ReadTurn(n, copies, killed);
          received := received + got;
        case CloseRead => ring.readopen := false;
        case CloseWrite => ring.writeopen := false;
      }
    }
    if old(ring.delivered) == old(ring.stored) {
      PrefixTail(old(ring.stored), received, sent);
    }
  }
}
