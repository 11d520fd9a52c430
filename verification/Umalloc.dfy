/** The Kernighan and Ritchie allocator of user/umalloc.c. Addresses count Header-sized
    units, so `p + p->s.size` is plain addition. */
module Umalloc {

  const UNIT: nat := 16       // sizeof(Header)
  const INT_MAX: int := 0x7fff_ffff
  const SBRK_ERROR: int := -1

  const UINT: int := 0x1_0000_0000

  type uint = n: int | 0 <= n < 0x1_0000_0000

  datatype Header = Header(ptr: int, size: uint)

  /** What a `uint` field holds after `n` is stored in it. */
  function Word(n: int): (w: uint)
    ensures 0 <= n < UINT ==> w == n
    ensures n >= UINT ==> w < n
  {
    n % UINT
  }

  lemma WordSum(a: nat, b: nat)
    ensures Word(Word(a) + Word(b)) == Word(a + b)
  {
  }

  // ---------- blocks tile the memory obtained from sbrk ----------

  /** Blocks, free and live: they do not overlap, and together they are exactly `arena`. */
  ghost predicate Tiles(base: int, blocks: map<int, int>, arena: set<int>) {
    && Apart(base, blocks)
    && (forall u :: u in arena <==> Covered(blocks, u))
  }

  ghost predicate Apart(base: int, blocks: map<int, int>) {
    && (forall a :: a in blocks ==> a > base && blocks[a] >= 1)
    && (forall a, b :: a in blocks && b in blocks && a < b ==> a + blocks[a] <= b)
  }

  /** The blocks in `live` have the same size before and after. */
  ghost predicate Kept(live: set<int>, before: map<int, int>, after: map<int, int>) {
    forall a :: a in live ==> a in before && a in after && before[a] == after[a]
  }

  ghost predicate Covered(blocks: map<int, int>, u: int) {
    exists a :: a in blocks && a <= u < a + blocks[a]
  }

  ghost function Span(a: int, n: int): (s: set<int>)
    ensures forall u :: u in s <==> a <= u < a + n
    decreases if n > 0 then n else 0
  {
    if n <= 0 then {} else Span(a, n - 1) + {a + n - 1}
  }

  ghost function Merged(blocks: map<int, int>, a: int, b: int): map<int, int>
    requires a in blocks && b in blocks
  {
    (blocks - {b})[a := blocks[a] + blocks[b]]
  }

  ghost function Split(blocks: map<int, int>, a: int, n: int): map<int, int>
    requires a in blocks
  {
    blocks[a := blocks[a] - n][a + blocks[a] - n := n]
  }

  lemma MergeApart(base: int, blocks: map<int, int>, a: int, b: int)
    requires Apart(base, blocks) && a in blocks && b in blocks && a + blocks[a] == b
    ensures Apart(base, Merged(blocks, a, b))
  {
  }

  lemma MergeTiles(base: int, blocks: map<int, int>, arena: set<int>, a: int, b: int)
    requires Tiles(base, blocks, arena) && a in blocks && b in blocks && a + blocks[a] == b
    ensures Tiles(base, Merged(blocks, a, b), arena)
  {
    MergeApart(base, blocks, a, b);
    var m := Merged(blocks, a, b);
    forall u ensures Covered(blocks, u) <==> Covered(m, u) {
      if Covered(blocks, u) {
        var c :| c in blocks && c <= u < c + blocks[c];
        if c == a || c == b {
          assert a in m && a <= u < a + m[a];
        } else {
          assert c in m && m[c] == blocks[c];
        }
      }
      if Covered(m, u) {
        var c :| c in m && c <= u < c + m[c];
        if c == a {
          assert (a <= u < a + blocks[a]) || (b <= u < b + blocks[b]);
        } else {
          assert c in blocks && m[c] == blocks[c];
        }
      }
    }
  }

  lemma SplitApart(base: int, blocks: map<int, int>, a: int, n: int)
    requires Apart(base, blocks) && a in blocks && 1 <= n < blocks[a]
    ensures a + blocks[a] - n !in blocks
    ensures Apart(base, Split(blocks, a, n))
  {
    var b, m := a + blocks[a] - n, Split(blocks, a, n);
    forall c, d | c in m && d in m && c < d ensures c + m[c] <= d {
      if c == b {
        assert d in blocks && a < d;
      } else if d == b {
        assert c in blocks && (c == a || c < a);
      }
    }
  }

  lemma SplitCovers(blocks: map<int, int>, a: int, n: int, u: int)
    requires a in blocks && 1 <= n < blocks[a] && a + blocks[a] - n !in blocks
    ensures Covered(blocks, u) <==> Covered(Split(blocks, a, n), u)
  {
    var b, m := a + blocks[a] - n, Split(blocks, a, n);
    if c :| c in blocks && c <= u < c + blocks[c] {
      var d := if c == a && b <= u then b else c;
      assert d in m && d <= u < d + m[d];
    }
    if c :| c in m && c <= u < c + m[c] {
      var d := if c == b then a else c;
      assert d in blocks && d <= u < d + blocks[d];
    }
  }

  lemma SplitTiles(base: int, blocks: map<int, int>, arena: set<int>, a: int, n: int)
    requires Tiles(base, blocks, arena) && a in blocks && 1 <= n < blocks[a]
    ensures a + blocks[a] - n !in blocks
    ensures Tiles(base, Split(blocks, a, n), arena)
  {
    SplitApart(base, blocks, a, n);
    forall u ensures u in arena <==> Covered(Split(blocks, a, n), u) {
      SplitCovers(blocks, a, n, u);
    }
  }

  lemma AddTiles(base: int, blocks: map<int, int>, arena: set<int>, a: int, n: int)
    requires Tiles(base, blocks, arena) && a > base && n >= 1 && Span(a, n) !! arena
    ensures a !in blocks
    ensures Tiles(base, blocks[a := n], arena + Span(a, n))
  {
    var m := blocks[a := n];
    assert a in Span(a, n) && !Covered(blocks, a);
    forall c | c in blocks ensures c + blocks[c] <= a || a + n <= c {
      var u := if a < c then c else a;
      assert u in Span(a, n) ==> !Covered(blocks, u);
    }
    forall u ensures Covered(m, u) <==> Covered(blocks, u) || u in Span(a, n) {
      if u in Span(a, n) {
        assert a in m && a <= u < a + m[a];
      }
      if Covered(blocks, u) {
        var c :| c in blocks && c <= u < c + blocks[c];
        assert c in m && m[c] == blocks[c];
      }
    }
  }

  /** The units in all blocks together. */
  ghost function Total(blocks: map<int, int>): int
    decreases |blocks|
  {
    if |blocks| == 0 then 0 else blocks[Pick(blocks.Keys)] + Total(blocks - {Pick(blocks.Keys)})
  }

  ghost function Pick<T>(s: set<T>): (a: T)
    requires |s| > 0
    ensures a in s
  {
    var a :| a in s;
    a
  }

  lemma {:induction false} SpanSize(a: int, n: nat)
    ensures |Span(a, n)| == n
  {
    if n > 0 {
      SpanSize(a, n - 1);
    }
  }

  lemma RemoveTile(base: int, blocks: map<int, int>, arena: set<int>, a: int)
    requires Tiles(base, blocks, arena) && a in blocks
    ensures Tiles(base, blocks - {a}, arena - Span(a, blocks[a]))
    ensures Span(a, blocks[a]) <= arena
  {
    var rest, s := blocks - {a}, Span(a, blocks[a]);
    hide Span;
    forall u ensures Covered(blocks, u) <==> Covered(rest, u) || u in s {
      RemoveCovers(blocks, a, u);
    }
    forall u | a <= u < a + blocks[a] ensures !Covered(rest, u) {
      RemoveApart(base, blocks, a, u);
    }
    hide Covered;
  }

  lemma RemoveCovers(blocks: map<int, int>, a: int, u: int)
    requires a in blocks
    ensures Covered(blocks, u) <==> Covered(blocks - {a}, u) || a <= u < a + blocks[a]
  {
    var rest := blocks - {a};
    if c :| c in blocks && c <= u < c + blocks[c] {
      assert c != a ==> c in rest && rest[c] == blocks[c];
    }
    if c :| c in rest && c <= u < c + rest[c] {
      assert c in blocks;
    }
  }

  lemma RemoveApart(base: int, blocks: map<int, int>, a: int, u: int)
    requires Apart(base, blocks) && a in blocks && a <= u < a + blocks[a]
    ensures !Covered(blocks - {a}, u)
  {
    forall c | c in blocks - {a} ensures !(c <= u < c + blocks[c]) {
      ApartAt(base, blocks, a, c);
      ApartAt(base, blocks, c, a);
    }
  }

  /** Nothing is lost or counted twice: free plus live units equal the units from sbrk. */
  lemma {:induction false} TotalIsArena(base: int, blocks: map<int, int>, arena: set<int>)
    requires Tiles(base, blocks, arena)
    ensures Total(blocks) == |arena|
    decreases |blocks|
  {
    if |blocks| == 0 {
      NoTiles(blocks, arena);
    } else {
      var a := Pick(blocks.Keys);
      SpanSize(a, blocks[a]);
      RemoveTile(base, blocks, arena, a);
      TotalIsArena(base, blocks - {a}, arena - Span(a, blocks[a]));
      Minus(arena, Span(a, blocks[a]));
    }
  }

  lemma Minus(s: set<int>, t: set<int>)
    requires t <= s
    ensures |s - t| == |s| - |t|
  {
    assert (s - t) + t == s;
  }

  lemma NoTiles(blocks: map<int, int>, arena: set<int>)
    requires |blocks| == 0 && forall u :: u in arena ==> Covered(blocks, u)
    ensures |arena| == 0
  {
    if |arena| > 0 {
      CoversSome(blocks, Pick(arena));
      assert false;
    }
  }

  lemma CoversSome(blocks: map<int, int>, u: int)
    requires Covered(blocks, u)
    ensures |blocks| > 0
  {
  }

  // ---------- the circular list ----------

  /** `nodes` lists the free headers by address; the last points back to the first. */
  ghost predicate Ring(mem: map<int, Header>, nodes: seq<int>) {
    && |nodes| > 0
    && (forall i :: 0 <= i < |nodes| ==> nodes[i] in mem)
    && (forall i :: 0 <= i < |nodes| - 1 ==> mem[nodes[i]].ptr == nodes[i+1])
    && mem[nodes[|nodes|-1]].ptr == nodes[0]
  }

  ghost predicate Ascending(nodes: seq<int>) {
    forall i, j :: 0 <= i < j < |nodes| ==> nodes[i] < nodes[j]
  }

  /** Number of free headers below `b`, minus one: where `b` belongs in the list. */
  ghost predicate Slot(nodes: seq<int>, b: int, k: int) {
    && 0 <= k < |nodes| && nodes[k] < b
    && (k + 1 < |nodes| ==> b < nodes[k+1])
  }

  lemma {:induction false} FindSlot(nodes: seq<int>, b: int) returns (k: int)
    requires |nodes| > 0 && nodes[0] < b && b !in nodes
    ensures Slot(nodes, b, k)
  {
    if nodes[|nodes|-1] < b {
      k := |nodes| - 1;
    } else {
      k := FindSlot(nodes[..|nodes|-1], b);
    }
  }

  /** Steps along the ring of `n` headers from index `j` to index `f`. */
  function Steps(n: nat, j: nat, f: nat): (d: nat)
    requires j < n && f < n
    ensures d < n && (d == 0 <==> j == f)
  {
    if j <= f then f - j else f - j + n
  }

  function After(n: nat, j: nat): nat
    requires j < n
  {
    if j + 1 < n then j + 1 else 0
  }

  // ---------- list, headers and blocks agree ----------

  /** A snapshot of the allocator: headers in memory, the free list in address order
      starting with the static `base`, every block's size, and which blocks are live. */
  datatype Heap = Heap(base: int, mem: map<int, Header>, nodes: seq<int>, blocks: map<int, int>, live: set<int>)

  ghost predicate Listed(h: Heap) {
    && (forall a :: a in h.live ==> a in h.blocks)
    && (forall i :: 0 <= i < |h.nodes| ==> h.nodes[i] !in h.live && (h.nodes[i] == h.base || h.nodes[i] in h.blocks))
    && (forall a :: a in h.blocks && a !in h.live ==> a in h.nodes)
  }

  ghost predicate Linked(h: Heap) {
    && Ring(h.mem, h.nodes) && Ascending(h.nodes)
    && h.nodes[0] == h.base && h.mem[h.base].size == 0 && h.base !in h.blocks
    && (forall a :: a in h.blocks ==> a in h.mem && h.mem[a].size == h.blocks[a])
    && Listed(h)
  }

  /** `Linked` but for the sizes, which are those of the blocks as far as 32 bits go. */
  ghost predicate Shaped(h: Heap) {
    && Ring(h.mem, h.nodes) && Ascending(h.nodes)
    && h.nodes[0] == h.base && h.mem[h.base].size == 0 && h.base !in h.blocks
    && (forall a :: a in h.blocks ==> a in h.mem && h.blocks[a] >= 0 && h.mem[a].size == Word(h.blocks[a]))
    && Listed(h)
  }

  ghost predicate Narrow(blocks: map<int, int>) {
    forall a :: a in blocks ==> blocks[a] < UINT
  }

  lemma LinkedShaped(h: Heap)
    ensures Linked(h) <==> Shaped(h) && Narrow(h.blocks)
  {
    hide Ring, Listed, Ascending;
  }

  /** No free block ends where another free block starts. */
  ghost predicate Coalesced(blocks: map<int, int>, live: set<int>) {
    forall a, b :: !Touch(blocks, live, a, b)
  }

  ghost predicate Touch(blocks: map<int, int>, live: set<int>, a: int, b: int) {
    a in blocks && b in blocks && a !in live && b !in live && a + blocks[a] == b
  }

  /** Some free block has room for `n` units. */
  ghost predicate Fits(blocks: map<int, int>, live: set<int>, n: int) {
    exists a :: a in blocks && a !in live && blocks[a] >= n
  }

  ghost function Inserted(nodes: seq<int>, k: int, b: int): (r: seq<int>)
    requires 0 <= k < |nodes|
    ensures |r| == |nodes| + 1
    ensures forall i :: 0 <= i < |r| ==> r[i] == if i <= k then nodes[i] else if i == k + 1 then b else nodes[i-1]
  {
    nodes[..k+1] + [b] + nodes[k+1..]
  }

  ghost function Dropped(nodes: seq<int>, k: int): (r: seq<int>)
    requires 0 <= k < |nodes|
    ensures |r| == |nodes| - 1
    ensures forall i :: 0 <= i < |r| ==> r[i] == if i < k then nodes[i] else nodes[i+1]
  {
    nodes[..k] + nodes[k+1..]
  }

  lemma InsertedMembers(nodes: seq<int>, k: int, b: int, x: int)
    requires 0 <= k < |nodes|
    ensures x in Inserted(nodes, k, b) <==> x == b || x in nodes
  {
  }

  lemma DroppedMembers(nodes: seq<int>, k: int, x: int)
    requires 0 <= k < |nodes| && Ascending(nodes)
    ensures x in Dropped(nodes, k) <==> x in nodes && x != nodes[k]
  {
    if x in nodes && x != nodes[k] {
      var i :| 0 <= i < |nodes| && nodes[i] == x;
      assert Dropped(nodes, k)[if i < k then i else i - 1] == x;
    }
  }

  lemma InsertedAscends(nodes: seq<int>, k: int, b: int)
    requires Ascending(nodes) && Slot(nodes, b, k)
    ensures Ascending(Inserted(nodes, k, b))
  {
    var r := Inserted(nodes, k, b);
    forall i, j | 0 <= i < j < |r| ensures r[i] < r[j] {
      if j == k + 1 {
        assert nodes[i] <= nodes[k];
      } else if i == k + 1 {
        assert nodes[k+1] <= nodes[j-1];
      }
    }
  }

  lemma InsertedRing(mem: map<int, Header>, nodes: seq<int>, k: int, b: int)
    requires Ring(mem, nodes) && Ascending(nodes) && Slot(nodes, b, k) && b in mem
    ensures var p := nodes[k];
            Ring(mem[b := Header(mem[p].ptr, mem[b].size)][p := Header(b, mem[p].size)], Inserted(nodes, k, b))
  {
    InsertedAscends(nodes, k, b);
    var p, r := nodes[k], Inserted(nodes, k, b);
    var m := mem[b := Header(mem[p].ptr, mem[b].size)][p := Header(b, mem[p].size)];
    hide Inserted;
    forall i | 0 <= i < |r| ensures r[i] in m && m[r[i]].ptr == r[if i + 1 < |r| then i + 1 else 0] {
      InsertedRingAt(mem, nodes, k, b, i);
    }
  }

  lemma InsertedRingAt(mem: map<int, Header>, nodes: seq<int>, k: int, b: int, i: int)
    requires Ring(mem, nodes) && Ascending(nodes) && Slot(nodes, b, k) && b in mem && 0 <= i <= |nodes|
    ensures var p, r := nodes[k], Inserted(nodes, k, b);
            var m := mem[b := Header(mem[p].ptr, mem[b].size)][p := Header(b, mem[p].size)];
            r[i] in m && m[r[i]].ptr == r[if i + 1 < |r| then i + 1 else 0]
  {
    var r := Inserted(nodes, k, b);
    hide Inserted;
    RingAt(mem, nodes, k);
    RingAt(mem, nodes, if i <= k then i else i - 1);
    InOrder(nodes, i, k);
    InOrder(nodes, k, i - 1);
    InOrder(nodes, k + 1, i - 1);
    hide Ring, Ascending;
    assert i != k ==> r[i] != nodes[k];
    assert i != k + 1 ==> r[i] != b;
  }

  lemma DroppedRing(mem: map<int, Header>, nodes: seq<int>, i: int, size: uint)
    requires Ring(mem, nodes) && Ascending(nodes) && 1 <= i < |nodes|
    ensures Ring(mem[nodes[i-1] := Header(mem[nodes[i]].ptr, size)], Dropped(nodes, i))
  {
  }

  lemma DroppedAscends(nodes: seq<int>, i: int)
    requires Ascending(nodes) && 0 <= i < |nodes|
    ensures Ascending(Dropped(nodes, i))
  {
  }

  /** Live block `bp` linked in as free behind header number `k`. */
  ghost function LinkIn(h: Heap, bp: int, k: int): Heap
    requires Ring(h.mem, h.nodes) && 0 <= k < |h.nodes| && bp in h.mem
  {
    var p := h.nodes[k];
    h.(mem := h.mem[bp := Header(h.mem[p].ptr, h.mem[bp].size)][p := Header(bp, h.mem[p].size)],
       nodes := Inserted(h.nodes, k, bp), live := h.live - {bp})
  }

  lemma LinkInLinked(h: Heap, bp: int, k: int)
    requires Linked(h) && bp in h.live && Slot(h.nodes, bp, k)
    ensures Linked(LinkIn(h, bp, k))
  {
    InsertedAscends(h.nodes, k, bp);
    InsertedRing(h.mem, h.nodes, k, bp);
    forall a | a in h.blocks && a !in h.live - {bp} ensures a in Inserted(h.nodes, k, bp) {
      InsertedMembers(h.nodes, k, bp, a);
    }
  }

  /** Header number `i` swallowing the next one. */
  ghost function Absorb(h: Heap, i: int): Heap
    requires Ring(h.mem, h.nodes) && 0 <= i < |h.nodes| - 1
    requires h.nodes[i] in h.blocks && h.nodes[i+1] in h.blocks
  {
    var a, b := h.nodes[i], h.nodes[i+1];
    h.(mem := h.mem[a := Header(h.mem[b].ptr, Word(h.mem[a].size + h.mem[b].size))],
       nodes := Dropped(h.nodes, i + 1), blocks := Merged(h.blocks, a, b))
  }

  lemma AbsorbListed(h: Heap, i: int)
    requires Listed(h) && Ascending(h.nodes) && Ring(h.mem, h.nodes) && h.base !in h.blocks
    requires 0 <= i < |h.nodes| - 1 && h.nodes[i] in h.blocks && h.nodes[i+1] in h.blocks
    ensures Listed(Absorb(h, i))
  {
    hide Ring, Dropped;
    var g, a, b := Absorb(h, i), h.nodes[i], h.nodes[i+1];
    InOrder(h.nodes, i, i + 1);
    assert b !in h.live;
    forall x ensures x in g.nodes <==> x in h.nodes && x != b {
      DroppedMembers(h.nodes, i + 1, x);
    }
    hide Absorb, Ascending;
    assert g.blocks == Merged(h.blocks, a, b) && g.live == h.live && g.base == h.base;
    forall j | 0 <= j < |g.nodes| ensures g.nodes[j] !in g.live && (g.nodes[j] == g.base || g.nodes[j] in g.blocks) {
      assert g.nodes[j] in g.nodes;
    }
  }

  lemma ListedNodes(h: Heap, i: int)
    requires Linked(h) && 1 <= i < |h.nodes|
    ensures h.nodes[i] in h.blocks && h.nodes[i] !in h.live && h.nodes[i] in h.mem && h.nodes[i] != h.base
        && h.nodes[i] != h.nodes[i-1]
    ensures h.nodes[i-1] in h.mem && h.mem[h.nodes[i]].size == h.blocks[h.nodes[i]] && Ring(h.mem, h.nodes)
  {
    assert h.nodes[0] < h.nodes[i];
  }

  lemma ShapedNodes(h: Heap, i: int)
    requires Shaped(h) && 1 <= i < |h.nodes|
    ensures h.nodes[i] in h.blocks && h.nodes[i] in h.mem && h.nodes[i] != h.base && h.nodes[i] != h.nodes[i-1]
    ensures h.blocks[h.nodes[i]] >= 0 && h.mem[h.nodes[i]].size == Word(h.blocks[h.nodes[i]])
  {
    assert h.nodes[0] < h.nodes[i];
  }

  lemma AbsorbSizes(h: Heap, i: int)
    requires Shaped(h) && 1 <= i < |h.nodes| - 1 && h.nodes[i] in h.blocks && h.nodes[i+1] in h.blocks
    ensures var g := Absorb(h, i);
            && g.nodes[0] == h.base && g.mem[h.base].size == 0 && h.base !in g.blocks
            && (forall a :: a in g.blocks ==> a in g.mem && g.blocks[a] >= 0 && g.mem[a].size == Word(g.blocks[a]))
  {
    ShapedNodes(h, i);
    ShapedNodes(h, i + 1);
    WordSum(h.blocks[h.nodes[i]], h.blocks[h.nodes[i+1]]);
    hide Listed, Ascending, Word;
  }

  lemma AbsorbShaped(h: Heap, i: int)
    requires Shaped(h) && 1 <= i < |h.nodes| - 1
    ensures h.nodes[i] in h.blocks && h.nodes[i+1] in h.blocks
    ensures Shaped(Absorb(h, i))
  {
    ShapedNodes(h, i);
    ShapedNodes(h, i + 1);
    AbsorbListed(h, i);
    AbsorbRing(h, i);
    AbsorbSizes(h, i);
    hide Listed, Ring, Ascending, Word, Absorb;
  }

  lemma AbsorbRing(h: Heap, i: int)
    requires Ring(h.mem, h.nodes) && Ascending(h.nodes)
    requires 0 <= i < |h.nodes| - 1 && h.nodes[i] in h.blocks && h.nodes[i+1] in h.blocks
    ensures Ring(Absorb(h, i).mem, Absorb(h, i).nodes) && Ascending(Absorb(h, i).nodes)
  {
    DroppedAscends(h.nodes, i + 1);
    DroppedRing(h.mem, h.nodes, i + 1, Word(h.mem[h.nodes[i]].size + h.mem[h.nodes[i+1]].size));
  }

  /** Header number `i` taken out of the list: its block is live from now on. */
  ghost function Unlink(h: Heap, i: int): Heap
    requires Ring(h.mem, h.nodes) && 1 <= i < |h.nodes|
  {
    var a, p := h.nodes[i], h.nodes[i-1];
    h.(mem := h.mem[p := Header(h.mem[a].ptr, h.mem[p].size)], nodes := Dropped(h.nodes, i), live := h.live + {a})
  }

  lemma UnlinkListed(h: Heap, i: int)
    requires Listed(h) && Ascending(h.nodes) && Ring(h.mem, h.nodes) && 1 <= i < |h.nodes| && h.nodes[i] in h.blocks
    ensures Listed(Unlink(h, i))
  {
    hide Ring;
    forall x ensures x in Dropped(h.nodes, i) <==> x in h.nodes && x != h.nodes[i] {
      DroppedMembers(h.nodes, i, x);
    }
  }

  lemma UnlinkLinked(h: Heap, i: int)
    requires Linked(h) && 1 <= i < |h.nodes|
    ensures Linked(Unlink(h, i))
  {
    ListedNodes(h, i);
    DroppedAscends(h.nodes, i);
    DroppedRing(h.mem, h.nodes, i, h.mem[h.nodes[i-1]].size);
    UnlinkListed(h, i);
    hide Listed, Ring, Ascending;
  }

  /** `n` units cut off the tail of free block number `i` and made live. */
  ghost function Cut(h: Heap, i: int, n: uint, junk: int): Heap
    requires Ring(h.mem, h.nodes) && 0 <= i < |h.nodes| && h.nodes[i] in h.blocks && n <= h.mem[h.nodes[i]].size
  {
    var a := h.nodes[i];
    var b := a + h.blocks[a] - n;
    h.(mem := h.mem[a := Header(h.mem[a].ptr, h.mem[a].size - n)][b := Header(junk, n)],
       blocks := Split(h.blocks, a, n), live := h.live + {b})
  }

  lemma CutRing(mem: map<int, Header>, nodes: seq<int>, i: int, b: int, n: uint, junk: int)
    requires Ring(mem, nodes) && 0 <= i < |nodes| && b !in nodes && n <= mem[nodes[i]].size
    ensures var a := nodes[i];
            Ring(mem[a := Header(mem[a].ptr, mem[a].size - n)][b := Header(junk, n)], nodes)
  {
  }

  lemma CutLinked(h: Heap, i: int, n: uint, junk: int)
    requires Linked(h) && Apart(h.base, h.blocks) && 1 <= i < |h.nodes|
    requires h.nodes[i] in h.blocks && 1 <= n < h.blocks[h.nodes[i]]
    ensures Linked(Cut(h, i, n, junk))
  {
    var b := h.nodes[i] + h.blocks[h.nodes[i]] - n;
    SplitApart(h.base, h.blocks, h.nodes[i], n);
    NotANode(h, b);
    CutRing(h.mem, h.nodes, i, b, n, junk);
    hide Ring, Ascending, Apart;
  }

  lemma NotANode(h: Heap, b: int)
    requires Linked(h) && b !in h.blocks && b != h.base
    ensures b !in h.nodes
  {
  }

  // ---------- coalescing ----------

  /** Freeing a block can bring it into contact with its two neighbours in the list only. */
  lemma FreedTouches(h: Heap, bp: int, k: int, a: int, b: int)
    requires Linked(h) && Apart(h.base, h.blocks) && Coalesced(h.blocks, h.live)
    requires bp in h.live && Slot(h.nodes, bp, k) && Touch(h.blocks, h.live - {bp}, a, b)
    ensures (a == h.nodes[k] && b == bp) || (a == bp && k + 1 < |h.nodes| && b == h.nodes[k+1])
  {
    assert !Touch(h.blocks, h.live, a, b);
    assert k == 0 || h.nodes[k] in h.blocks;
    if b == bp {
      var i :| 0 <= i < |h.nodes| && h.nodes[i] == a;
      assert k == 0 || !(h.nodes[i] < h.nodes[k]);
      assert k + 1 < |h.nodes| ==> !(h.nodes[k+1] <= h.nodes[i]);
      assert i == k;
    } else {
      var i :| 0 <= i < |h.nodes| && h.nodes[i] == b;
      assert !(h.nodes[i] <= h.nodes[k]);
      assert k + 1 < |h.nodes| && h.nodes[k+1] in h.blocks;
      assert i == k + 1;
    }
  }

  lemma MergedTouches(blocks: map<int, int>, live: set<int>, a: int, b: int, x: int, y: int)
    requires a in blocks && b in blocks && a !in live && b !in live && a != b && a + blocks[a] == b
    ensures Touch(Merged(blocks, a, b), live, x, y) ==> Touch(blocks, live, if x == a then b else x, y) && y != b
  {
  }

  // ---------- what free() does ----------

  /** The loop in `free` stops, by its guard or by the break, exactly at the header the
      block belongs behind. */
  lemma SearchStops(h: Heap, bp: int, j: int, k: int)
    requires Linked(h) && bp in h.live && Slot(h.nodes, bp, k) && 0 <= j < |h.nodes| && h.base < bp
    ensures var p := h.nodes[j];
            var next := h.mem[p].ptr;
            (bp > p && bp < next) || (p >= next && (bp > p || bp < next)) <==> j == k
  {
    var n := |h.nodes|;
    if j + 1 < n {
      assert h.nodes[j] < h.nodes[j+1] == h.mem[h.nodes[j]].ptr;
    } else {
      assert h.nodes[0] <= h.nodes[j];
    }
    if j < k {
      assert h.nodes[j+1] <= h.nodes[k];
    } else if k < j {
      assert h.nodes[k+1] <= h.nodes[j];
    }
  }

  /** `free` merges left: the header before `bp` ends at `bp`. */
  predicate TouchesLeft(h: Heap, bp: int, p: int)
    requires p in h.mem
  {
    p + h.mem[p].size == bp
  }

  predicate TouchesRight(h: Heap, bp: int, p: int)
    requires p in h.mem && bp in h.mem
  {
    bp + h.mem[bp].size == h.mem[p].ptr
  }

  lemma Neighbours(h: Heap, bp: int, k: int)
    requires Linked(h) && Apart(h.base, h.blocks) && bp in h.live && Slot(h.nodes, bp, k)
    ensures Ring(h.mem, h.nodes) && h.nodes[k] in h.mem && bp in h.mem && bp in h.blocks
        && h.mem[h.nodes[k]].ptr in h.mem && bp != h.nodes[k]
    ensures TouchesLeft(h, bp, h.nodes[k]) ==> k > 0 && h.nodes[k] in h.blocks && h.nodes[k] !in h.live
    ensures TouchesRight(h, bp, h.nodes[k]) ==>
              k + 1 < |h.nodes| && h.nodes[k+1] in h.blocks && h.nodes[k+1] !in h.live && h.mem[h.nodes[k]].ptr == h.nodes[k+1]
  {
    assert h.nodes[0] <= h.nodes[k];
    assert h.mem[bp].size == h.blocks[bp] >= 1;
    if k + 1 == |h.nodes| {
      assert h.mem[h.nodes[k]].ptr == h.nodes[0];
    } else {
      assert h.nodes[0] < h.nodes[k+1];
    }
  }

  ghost function FreeRight(h: Heap, bp: int, k: int): Heap
    requires Linked(h) && Apart(h.base, h.blocks) && bp in h.live && Slot(h.nodes, bp, k)
  {
    Neighbours(h, bp, k);
    LinkInLinked(h, bp, k);
    if TouchesRight(h, bp, h.nodes[k]) then Absorb(LinkIn(h, bp, k), k + 1) else LinkIn(h, bp, k)
  }

  /** `bp` linked in, merged with what follows it and what precedes it where they touch. */
  ghost function FreeHeap(h: Heap, bp: int, k: int): Heap
    requires Linked(h) && Apart(h.base, h.blocks) && bp in h.live && Slot(h.nodes, bp, k)
  {
    Neighbours(h, bp, k);
    FreeRightShaped(h, bp, k);
    if TouchesLeft(h, bp, h.nodes[k]) then Absorb(FreeRight(h, bp, k), k) else FreeRight(h, bp, k)
  }

  lemma FreeRightShaped(h: Heap, bp: int, k: int)
    requires Linked(h) && Apart(h.base, h.blocks) && bp in h.live && Slot(h.nodes, bp, k)
    ensures var r := FreeRight(h, bp, k);
            && Shaped(r) && |r.nodes| > k + 1 && r.nodes[k] == h.nodes[k] && r.nodes[k+1] == bp
            && bp in r.blocks && (h.nodes[k] in h.blocks ==> h.nodes[k] in r.blocks)
  {
    Neighbours(h, bp, k);
    LinkInLinked(h, bp, k);
    LinkedShaped(LinkIn(h, bp, k));
    if TouchesRight(h, bp, h.nodes[k]) {
      AbsorbShaped(LinkIn(h, bp, k), k + 1);
    }
  }

  lemma FreeHeapShaped(h: Heap, bp: int, k: int)
    requires Linked(h) && Apart(h.base, h.blocks) && bp in h.live && Slot(h.nodes, bp, k)
    ensures Shaped(FreeHeap(h, bp, k)) && h.nodes[k] in FreeHeap(h, bp, k).nodes
  {
    Neighbours(h, bp, k);
    FreeRightShaped(h, bp, k);
    if TouchesLeft(h, bp, h.nodes[k]) {
      AbsorbShaped(FreeRight(h, bp, k), k);
    }
    assert FreeHeap(h, bp, k).nodes[k] == h.nodes[k];
  }

  lemma Overwrite(m: map<int, Header>, a: int, b: int, x: Header, y: Header, z: Header, w: Header)
    requires a != b
    ensures m[a := x][b := y][a := z] == m[a := z][b := y]
    ensures m[a := x][b := y][b := w] == m[a := x][b := w]
  {
  }

  /** The header `free` gives the block: its own, or merged with the one it touches. */
  function FreedHeader(h: Heap, bp: int, p: int): Header
    requires p in h.mem && bp in h.mem && h.mem[p].ptr in h.mem
  {
    var q := h.mem[p].ptr;
    if TouchesRight(h, bp, p) then Header(h.mem[q].ptr, Word(h.mem[bp].size + h.mem[q].size)) else Header(q, h.mem[bp].size)
  }

  lemma FreeRightMemory(h: Heap, bp: int, k: int)
    requires Linked(h) && Apart(h.base, h.blocks) && bp in h.live && Slot(h.nodes, bp, k)
    ensures var p := h.nodes[k];
            FreeRight(h, bp, k).mem == h.mem[bp := FreedHeader(h, bp, p)][p := Header(bp, h.mem[p].size)]
  {
    hide Linked, Ascending, Apart;
    Neighbours(h, bp, k);
    LinkInLinked(h, bp, k);
    var p := h.nodes[k];
    var q := h.mem[p].ptr;
    var x, y, z := Header(q, h.mem[bp].size), Header(bp, h.mem[p].size), FreedHeader(h, bp, p);
    Overwrite(h.mem, bp, p, x, y, z, y);
    if TouchesRight(h, bp, p) {
      var l := LinkIn(h, bp, k);
      assert l.nodes[k+1] == bp && l.nodes[k+2] == q && q != p && q != bp;
    }
  }

  /** The two conditional statements of `free`, field by field, produce `FreeHeap`. */
  lemma FreeMemory(h: Heap, bp: int, k: int)
    requires Linked(h) && Apart(h.base, h.blocks) && bp in h.live && Slot(h.nodes, bp, k)
    ensures var p := h.nodes[k];
            var z := FreedHeader(h, bp, p);
            FreeHeap(h, bp, k).mem
            == h.mem[bp := z][p := if TouchesLeft(h, bp, p) then Header(z.ptr, Word(h.mem[p].size + z.size))
                                   else Header(bp, h.mem[p].size)]
  {
    hide Linked, Ascending, Apart, FreeRight;
    Neighbours(h, bp, k);
    FreeRightShaped(h, bp, k);
    FreeRightMemory(h, bp, k);
    var p, z := h.nodes[k], FreedHeader(h, bp, h.nodes[k]);
    Overwrite(h.mem, bp, p, z, Header(bp, h.mem[p].size), z, Header(z.ptr, Word(h.mem[p].size + z.size)));
  }

  lemma FreeBlocks(h: Heap, bp: int, k: int)
    requires Linked(h) && Apart(h.base, h.blocks) && bp in h.live && Slot(h.nodes, bp, k)
    ensures TouchesRight(h, bp, h.nodes[k]) ==> k + 1 < |h.nodes| && h.nodes[k+1] in h.blocks && h.nodes[k+1] !in h.live
                                                && bp + h.blocks[bp] == h.nodes[k+1]
    ensures TouchesLeft(h, bp, h.nodes[k]) ==> h.nodes[k] in h.blocks && h.nodes[k] !in h.live
                                               && h.nodes[k] + h.blocks[h.nodes[k]] == bp
    ensures var b1 := if TouchesRight(h, bp, h.nodes[k]) then Merged(h.blocks, bp, h.nodes[k+1]) else h.blocks;
            && (h.nodes[k] in h.blocks ==> h.nodes[k] in b1)
            && FreeRight(h, bp, k).blocks == b1
            && FreeHeap(h, bp, k).blocks == (if TouchesLeft(h, bp, h.nodes[k]) then Merged(b1, h.nodes[k], bp) else b1)
            && FreeHeap(h, bp, k).live == h.live - {bp}
  {
    Neighbours(h, bp, k);
    FreeRightShaped(h, bp, k);
  }

  /** Merging a block with its neighbours: `p` ends at `bp` if `left`, `q` starts at its
      end if `right`. */
  lemma MergeBoth(base: int, blocks: map<int, int>, live: set<int>, arena: set<int>,
                  p: int, bp: int, q: int, left: bool, right: bool)
    requires Tiles(base, blocks, arena) && bp in live && bp in blocks
    requires right ==> q in blocks && q !in live && bp + blocks[bp] == q
    requires left ==> p in blocks && p !in live && p + blocks[p] == bp
    ensures var b1 := if right then Merged(blocks, bp, q) else blocks;
            && (left ==> p in b1)
            && (var b2 := if left then Merged(b1, p, bp) else b1;
                && Tiles(base, b2, arena)
                && (forall a :: a in live - {bp} && a in blocks ==> a in b2 && b2[a] == blocks[a])
                && Fits(b2, live - {bp}, blocks[bp]))
  {
    var b1 := blocks;
    if right {
      MergeTiles(base, blocks, arena, bp, q);
      b1 := Merged(blocks, bp, q);
    }
    var b2 := b1;
    if left {
      MergeTiles(base, b1, arena, p, bp);
      b2 := Merged(b1, p, bp);
    }
    var a := if left then p else bp;
    assert a in b2 && a !in live - {bp} && b2[a] >= blocks[bp];
  }

  lemma FreeTiles(h: Heap, arena: set<int>, bp: int, k: int)
    requires Linked(h) && Tiles(h.base, h.blocks, arena) && bp in h.live && Slot(h.nodes, bp, k)
    ensures Tiles(h.base, FreeHeap(h, bp, k).blocks, arena)
    ensures var f := FreeHeap(h, bp, k);
            && f.live == h.live - {bp}
            && (forall a :: a in f.live ==> a in f.blocks && f.blocks[a] == h.blocks[a])
            && Fits(f.blocks, f.live, h.blocks[bp])
  {
    FreeBlocks(h, bp, k);
    MergeBoth(h.base, h.blocks, h.live, arena, h.nodes[k], bp, if k + 1 < |h.nodes| then h.nodes[k+1] else 0,
              TouchesLeft(h, bp, h.nodes[k]), TouchesRight(h, bp, h.nodes[k]));
  }

  /** After `free` has merged the block with each neighbour it touches, no free blocks touch. */
  lemma FreeCoalesces(h: Heap, bp: int, k: int)
    requires Linked(h) && Apart(h.base, h.blocks) && Coalesced(h.blocks, h.live)
    requires bp in h.live && Slot(h.nodes, bp, k)
    ensures Coalesced(FreeHeap(h, bp, k).blocks, h.live - {bp})
  {
    FreeBlocks(h, bp, k);
    var free, p, b1, b2 := h.live - {bp}, h.nodes[k], FreeRight(h, bp, k).blocks, FreeHeap(h, bp, k).blocks;
    forall x, y | Touch(b1, free, x, y) ensures x == p && y == bp {
      if TouchesRight(h, bp, p) {
        MergedTouches(h.blocks, free, bp, h.nodes[k+1], x, y);
        FreedTouches(h, bp, k, if x == bp then h.nodes[k+1] else x, y);
      } else {
        FreedTouches(h, bp, k, x, y);
      }
    }
    forall x, y ensures !Touch(b2, free, x, y) {
      if TouchesLeft(h, bp, p) {
        MergedTouches(b1, free, p, bp, x, y);
      }
    }
  }

  // ---------- sizes are 32 bits wide ----------

  /** Units of the free block that ends at `b`; 0 for none. */
  ghost function LeftUnits(blocks: map<int, int>, live: set<int>, b: int): int {
    var s := set a | a in blocks && a !in live && a + blocks[a] == b;
    if |s| == 0 then 0 else blocks[Pick(s)]
  }

  /** Units of the free block that starts at `b`; 0 for none. */
  ghost function RightUnits(blocks: map<int, int>, live: set<int>, b: int): int {
    if b in blocks && b !in live then blocks[b] else 0
  }

  /** What `n` units at `a` come to together with the free blocks they touch. */
  ghost function MergedUnits(blocks: map<int, int>, live: set<int>, a: int, n: int): int {
    LeftUnits(blocks, live, a) + n + RightUnits(blocks, live, a + n)
  }

  lemma LeftIs(base: int, blocks: map<int, int>, live: set<int>, a: int, b: int)
    requires Apart(base, blocks) && a in blocks && a !in live && a + blocks[a] == b
    ensures LeftUnits(blocks, live, b) == blocks[a]
  {
    var s := set a | a in blocks && a !in live && a + blocks[a] == b;
    assert a in s;
    var c := Pick(s);
    assert !(a < c) && !(c < a);
  }

  lemma LeftNone(blocks: map<int, int>, live: set<int>, b: int)
    requires forall a :: a in blocks && a !in live ==> a + blocks[a] != b
    ensures LeftUnits(blocks, live, b) == 0
  {
    var s := set a | a in blocks && a !in live && a + blocks[a] == b;
    assert s == {};
  }

  /** The free blocks a live block touches are its neighbours in the list. */
  lemma TouchedUnits(h: Heap, bp: int, k: int)
    requires Linked(h) && Apart(h.base, h.blocks) && bp in h.live && Slot(h.nodes, bp, k)
    ensures h.nodes[k] in h.mem && bp in h.mem && bp in h.blocks
    ensures TouchesLeft(h, bp, h.nodes[k]) ==> h.nodes[k] in h.blocks
    ensures LeftUnits(h.blocks, h.live, bp) == if TouchesLeft(h, bp, h.nodes[k]) then h.blocks[h.nodes[k]] else 0
    ensures TouchesRight(h, bp, h.nodes[k]) ==> k + 1 < |h.nodes| && h.nodes[k+1] in h.blocks
    ensures RightUnits(h.blocks, h.live, bp + h.blocks[bp]) == if TouchesRight(h, bp, h.nodes[k]) then h.blocks[h.nodes[k+1]] else 0
  {
    Neighbours(h, bp, k);
    if TouchesLeft(h, bp, h.nodes[k]) {
      LeftIs(h.base, h.blocks, h.live, h.nodes[k], bp);
    } else {
      forall a | a in h.blocks && a !in h.live ensures a + h.blocks[a] != bp {
        if a + h.blocks[a] == bp { LeftNeighbour(h, bp, k, a); }
      }
      LeftNone(h.blocks, h.live, bp);
    }
    var q := bp + h.blocks[bp];
    if q in h.blocks && q !in h.live { RightNeighbour(h, bp, k, q); }
  }

  lemma ApartAt(base: int, blocks: map<int, int>, a: int, b: int)
    requires Apart(base, blocks)
    ensures a in blocks && b in blocks && a < b ==> a + blocks[a] <= b
  {
  }

  lemma InOrder(nodes: seq<int>, i: int, j: int)
    requires Ascending(nodes)
    ensures 0 <= i <= j < |nodes| ==> nodes[i] <= nodes[j] && (i < j ==> nodes[i] < nodes[j])
  {
  }

  lemma LeftNeighbour(h: Heap, bp: int, k: int, a: int)
    requires Linked(h) && Apart(h.base, h.blocks) && bp in h.live && Slot(h.nodes, bp, k)
    requires a in h.blocks && a !in h.live && a + h.blocks[a] == bp
    ensures a == h.nodes[k]
  {
    var i :| 0 <= i < |h.nodes| && h.nodes[i] == a;
    assert k > 0 ==> h.nodes[0] < h.nodes[k] && h.nodes[k] in h.blocks;
    ApartAt(h.base, h.blocks, a, h.nodes[k]);
    InOrder(h.nodes, i, k);
    InOrder(h.nodes, k + 1, i);
  }

  lemma RightNeighbour(h: Heap, bp: int, k: int, q: int)
    requires Linked(h) && Apart(h.base, h.blocks) && bp in h.live && Slot(h.nodes, bp, k)
    requires q in h.blocks && q !in h.live && bp + h.blocks[bp] == q && bp in h.mem
    ensures k + 1 < |h.nodes| && q == h.nodes[k+1] && h.nodes[k] in h.mem && TouchesRight(h, bp, h.nodes[k])
  {
    var i :| 0 <= i < |h.nodes| && h.nodes[i] == q;
    assert bp < q;
    assert k < i;
    assert h.nodes[0] < h.nodes[k+1] && h.nodes[k+1] in h.blocks;
    InOrder(h.nodes, k + 1, i);
  }

  lemma TouchedSum(h: Heap, bp: int, k: int)
    requires Linked(h) && Apart(h.base, h.blocks) && bp in h.live && Slot(h.nodes, bp, k)
    ensures h.nodes[k] in h.mem && bp in h.mem && bp in h.blocks && h.mem[h.nodes[k]].ptr in h.mem
    ensures MergedUnits(h.blocks, h.live, bp, h.blocks[bp])
            == (if TouchesLeft(h, bp, h.nodes[k]) then h.mem[h.nodes[k]].size else 0) + h.mem[bp].size
               + if TouchesRight(h, bp, h.nodes[k]) then h.mem[h.mem[h.nodes[k]].ptr].size else 0
  {
    TouchedUnits(h, bp, k);
    Neighbours(h, bp, k);
    hide Ring, Ascending, Listed, Apart, LeftUnits, RightUnits;
  }

  /** The freed block ends up in a block of `MergedUnits`; every other block is as it was. */
  lemma FreeUnits(h: Heap, bp: int, k: int)
    requires Linked(h) && Apart(h.base, h.blocks) && bp in h.live && Slot(h.nodes, bp, k)
    ensures h.nodes[k] in h.mem && bp in h.blocks
    ensures var f, m := FreeHeap(h, bp, k), if TouchesLeft(h, bp, h.nodes[k]) then h.nodes[k] else bp;
            && m in f.blocks && f.blocks[m] == MergedUnits(h.blocks, h.live, bp, h.blocks[bp])
            && forall a :: a in f.blocks && a != m ==> a in h.blocks && f.blocks[a] == h.blocks[a]
  {
    hide Linked, Apart, FreeHeap, FreeRight, LeftUnits, RightUnits;
    FreeBlocks(h, bp, k);
    TouchedUnits(h, bp, k);
  }

  lemma FreeLinked(h: Heap, bp: int, k: int)
    requires Linked(h) && Apart(h.base, h.blocks) && bp in h.live && Slot(h.nodes, bp, k)
    ensures bp in h.blocks
    ensures Shaped(FreeHeap(h, bp, k))
    ensures Linked(FreeHeap(h, bp, k)) <==> MergedUnits(h.blocks, h.live, bp, h.blocks[bp]) < UINT
    ensures Narrow(FreeHeap(h, bp, k).blocks) <==> Linked(FreeHeap(h, bp, k))
  {
    FreeUnits(h, bp, k);
    FreeHeapShaped(h, bp, k);
    LinkedShaped(h);
    var f := FreeHeap(h, bp, k);
    LinkedShaped(f);
    hide Linked, Shaped, Apart, FreeHeap, MergedUnits, Narrow;
    OneWide(h.blocks, f.blocks, if TouchesLeft(h, bp, h.nodes[k]) then h.nodes[k] else bp);
  }

  lemma OneWide(was: map<int, int>, blocks: map<int, int>, m: int)
    requires Narrow(was) && m in blocks && forall a :: a in blocks && a != m ==> a in was && blocks[a] == was[a]
    ensures Narrow(blocks) <==> blocks[m] < UINT
  {
  }

  /** Some reading of the headers as a list and blocks accounts for exactly the units of `arena`. */
  ghost predicate Sound(base: int, mem: map<int, Header>, live: set<int>, arena: set<int>) {
    exists nodes, blocks :: Linked(Heap(base, mem, nodes, blocks, live)) && Tiles(base, blocks, arena)
  }

  /** Headers in memory determine the list. */
  lemma {:induction false} RingPrefix(mem: map<int, Header>, a: seq<int>, b: seq<int>, i: int)
    requires Ring(mem, a) && Ring(mem, b) && a[0] == b[0] && 0 <= i < |a| && i < |b|
    ensures a[i] == b[i]
  {
    if i > 0 {
      RingPrefix(mem, a, b, i - 1);
      assert mem[a[i-1]].ptr == a[i] && mem[b[i-1]].ptr == b[i];
    }
  }

  lemma RingAt(mem: map<int, Header>, nodes: seq<int>, i: int)
    requires Ring(mem, nodes)
    ensures 0 <= i < |nodes| ==> nodes[i] in mem && mem[nodes[i]].ptr == nodes[if i + 1 < |nodes| then i + 1 else 0]
  {
  }

  lemma RingUnique(mem: map<int, Header>, a: seq<int>, b: seq<int>)
    requires Ring(mem, a) && Ring(mem, b) && Ascending(a) && Ascending(b) && a[0] == b[0]
    ensures a == b
  {
    forall i | 0 <= i < |a| && i < |b| ensures a[i] == b[i] {
      RingPrefix(mem, a, b, i);
    }
    RingAt(mem, a, |b| - 1);
    RingAt(mem, b, |a| - 1);
    InOrder(a, 0, |b|);
    InOrder(b, 0, |a|);
  }

  lemma BlocksAre(h: Heap, a: int)
    requires Listed(h) && h.base !in h.blocks
    ensures a in h.blocks <==> a in h.live || (a in h.nodes && a != h.base)
  {
  }

  lemma SameBlocks(g: Heap, h: Heap)
    requires Linked(g) && Shaped(h) && g.base == h.base && g.mem == h.mem && g.live == h.live
    ensures g.blocks.Keys == h.blocks.Keys && forall a :: a in g.blocks ==> g.blocks[a] == Word(h.blocks[a])
  {
    RingUnique(g.mem, g.nodes, h.nodes);
    forall a ensures a in g.blocks <==> a in h.blocks {
      BlocksAre(g, a);
      BlocksAre(h, a);
    }
    hide Ring, Ascending, Word, Listed;
  }

  /** A block of 2^32 units or more: its header tells of fewer, and the units past those are
      neither free nor live. */
  lemma WideLoses(g: Heap, h: Heap, arena: set<int>)
    requires Linked(g) && Shaped(h) && g.base == h.base && g.mem == h.mem && g.live == h.live
    requires Tiles(h.base, h.blocks, arena) && !Narrow(h.blocks)
    ensures !Tiles(g.base, g.blocks, arena)
  {
    SameBlocks(g, h);
    hide Linked, Shaped;
    var m := Widest(h.blocks);
    var u := m + Word(h.blocks[m]);
    assert Covered(h.blocks, u);
    forall c | c in g.blocks ensures !(c <= u < c + g.blocks[c]) {
      assert c in h.blocks && g.blocks[c] <= h.blocks[c];
      ApartAt(h.base, h.blocks, c, m);
      ApartAt(h.base, h.blocks, m, c);
    }
  }

  ghost function Widest(blocks: map<int, int>): (a: int)
    requires !Narrow(blocks)
    ensures a in blocks && blocks[a] >= UINT
  {
    var wide := set b | b in blocks && blocks[b] >= UINT;
    assert |wide| == 0 ==> forall a :: a in blocks ==> a !in wide;
    Pick(wide)
  }

  /** `free` leaves a heap, with any list and blocks whatever, exactly when the sizes of the
      block and of the free blocks it touches add up to less than 2^32 units. */
  lemma FreeSound(h: Heap, arena: set<int>, bp: int, k: int)
    requires Linked(h) && Tiles(h.base, h.blocks, arena) && Coalesced(h.blocks, h.live)
    requires bp in h.live && Slot(h.nodes, bp, k)
    ensures Apart(h.base, h.blocks) && bp in h.blocks
    ensures var f := FreeHeap(h, bp, k);
            Sound(h.base, f.mem, f.live, arena) <==> MergedUnits(h.blocks, h.live, bp, h.blocks[bp]) < UINT
  {
    var f := FreeHeap(h, bp, k);
    FreeLinked(h, bp, k);
    FreeTiles(h, arena, bp, k);
    assert f.base == h.base;
    hide FreeHeap, Linked, Tiles, MergedUnits, Shaped;
    assert f == Heap(h.base, f.mem, f.nodes, f.blocks, f.live);
    if Sound(h.base, f.mem, f.live, arena) && !Linked(f) {
      var nodes, blocks :| Linked(Heap(h.base, f.mem, nodes, blocks, f.live)) && Tiles(h.base, blocks, arena);
      WideLoses(Heap(h.base, f.mem, nodes, blocks, f.live), f, arena);
    }
  }

  /** A caller's test: no merged block is larger than all the memory ever obtained. */
  lemma ArenaBounds(h: Heap, arena: set<int>, bp: int, k: int)
    requires Linked(h) && Tiles(h.base, h.blocks, arena) && bp in h.live && Slot(h.nodes, bp, k)
    ensures bp in h.blocks && MergedUnits(h.blocks, h.live, bp, h.blocks[bp]) <= |arena|
  {
    FreeUnits(h, bp, k);
    FreeTiles(h, arena, bp, k);
    var f, m := FreeHeap(h, bp, k), if TouchesLeft(h, bp, h.nodes[k]) then h.nodes[k] else bp;
    RemoveTile(h.base, f.blocks, arena, m);
    SpanSize(m, f.blocks[m]);
    Minus(arena, Span(m, f.blocks[m]));
  }

  /** All that `free` does and keeps, once the place in the list is found. */
  lemma FreeKeeps(h: Heap, arena: set<int>, bp: int, k: int)
    requires Linked(h) && Tiles(h.base, h.blocks, arena) && Coalesced(h.blocks, h.live)
    requires bp in h.live && Slot(h.nodes, bp, k)
    ensures Apart(h.base, h.blocks)
    ensures var p, f := h.nodes[k], FreeHeap(h, bp, k);
            && p >= h.base && p in h.mem && bp in h.mem && h.mem[p].ptr in h.mem && bp != p && p in f.nodes
                && f.base == h.base
            && f.live == h.live - {bp} && bp in h.blocks
            && (forall a :: a in f.live ==> a in f.blocks && a in h.blocks && f.blocks[a] == h.blocks[a])
            && Fits(f.blocks, f.live, h.blocks[bp])
            && (Linked(f) <==> MergedUnits(h.blocks, h.live, bp, h.blocks[bp]) < UINT)
            && Tiles(h.base, f.blocks, arena) && Coalesced(f.blocks, f.live)
            && (var z := FreedHeader(h, bp, p);
                f.mem == h.mem[bp := z][p := if TouchesLeft(h, bp, p) then Header(z.ptr, Word(h.mem[p].size + z.size))
                                            else Header(bp, h.mem[p].size)])
  {
    FreeLinked(h, bp, k);
    FreeHeapShaped(h, bp, k);
    FreeMemory(h, bp, k);
    FreeTiles(h, arena, bp, k);
    FreeCoalesces(h, bp, k);
    Neighbours(h, bp, k);
    assert h.nodes[0] <= h.nodes[k];
    hide MergedUnits, Word;
  }

  lemma NextNode(h: Heap, j: int)
    requires Linked(h) && 0 <= j < |h.nodes|
    ensures h.mem[h.nodes[j]].ptr == h.nodes[After(|h.nodes|, j)]
  {
  }

  /** A block taken whole, or the tail of one, leaves no two free blocks in contact. */
  lemma TakenCoalesces(blocks: map<int, int>, live: set<int>, a: int, n: int)
    requires Coalesced(blocks, live) && a in blocks && a !in live
    ensures Coalesced(blocks, live + {a})
    ensures 1 <= n < blocks[a] && a + blocks[a] - n !in blocks ==>
              Coalesced(Split(blocks, a, n), live + {a + blocks[a] - n})
  {
    forall x, y ensures !Touch(blocks, live + {a}, x, y) {
      assert !Touch(blocks, live, x, y);
    }
    if 1 <= n < blocks[a] && a + blocks[a] - n !in blocks {
      var b := a + blocks[a] - n;
      forall x, y ensures !Touch(Split(blocks, a, n), live + {b}, x, y) {
        assert !Touch(blocks, live, x, y);
      }
    }
  }

  /** Fresh memory from sbrk, recorded as a live block of `n` units. */
  ghost function Obtain(h: Heap, hp: int, n: uint, junk: int): Heap {
    h.(mem := h.mem[hp := Header(junk, n)], blocks := h.blocks[hp := n], live := h.live + {hp})
  }

  lemma ObtainKeeps(h: Heap, arena: set<int>, hp: int, n: uint, junk: int)
    requires Linked(h) && Tiles(h.base, h.blocks, arena) && Coalesced(h.blocks, h.live)
    requires hp > h.base && n >= 1 && Span(hp, n) !! arena
    ensures var g := Obtain(h, hp, n, junk);
            && hp !in h.blocks && Linked(g) && Tiles(h.base, g.blocks, arena + Span(hp, n))
                && Coalesced(g.blocks, g.live)
  {
    AddTiles(h.base, h.blocks, arena, hp, n);
    ObtainLinked(h, hp, n, junk);
    ObtainCoalesced(h.blocks, h.live, hp, n);
  }

  lemma ObtainLinked(h: Heap, hp: int, n: uint, junk: int)
    requires Linked(h) && hp !in h.blocks && hp != h.base
    ensures Linked(Obtain(h, hp, n, junk))
  {
    NotANode(h, hp);
    assert Ring(h.mem[hp := Header(junk, n)], h.nodes);
    hide Ring;
  }

  lemma ObtainCoalesced(blocks: map<int, int>, live: set<int>, hp: int, n: int)
    requires Coalesced(blocks, live) && hp !in blocks
    ensures Coalesced(blocks[hp := n], live + {hp})
  {
    var b, l := blocks[hp := n], live + {hp};
    forall x, y ensures !Touch(b, l, x, y) {
      assert !Touch(blocks, live, x, y);
    }
  }

  /** Free block number `i` handed out whole. */
  lemma TakeWhole(h: Heap, i: int)
    requires Linked(h) && Coalesced(h.blocks, h.live) && 1 <= i < |h.nodes|
    ensures h.nodes[i] in h.blocks && h.nodes[i] !in h.live
    ensures Linked(Unlink(h, i)) && Coalesced(h.blocks, h.live + {h.nodes[i]}) && h.nodes[i-1] in Unlink(h, i).nodes
  {
    ListedNodes(h, i);
    UnlinkLinked(h, i);
    TakenCoalesces(h.blocks, h.live, h.nodes[i], 0);
    assert Unlink(h, i).nodes[i-1] == h.nodes[i-1];
  }

  /** The tail of free block number `i` handed out. */
  lemma TakeTail(h: Heap, arena: set<int>, i: int, n: uint, junk: int)
    requires Linked(h) && Coalesced(h.blocks, h.live) && Tiles(h.base, h.blocks, arena) && 1 <= i < |h.nodes|
    requires h.nodes[i] in h.blocks && 1 <= n < h.blocks[h.nodes[i]]
    ensures var c, b := Cut(h, i, n, junk), h.nodes[i] + h.blocks[h.nodes[i]] - n;
            Linked(c) && Coalesced(c.blocks, c.live) && Tiles(h.base, c.blocks, arena) && b !in h.blocks && b > h.base
  {
    CutLinked(h, i, n, junk);
    SplitTiles(h.base, h.blocks, arena, h.nodes[i], n);
    TakenCoalesces(h.blocks, h.live, h.nodes[i], n);
  }

  /** When one lap of the search has seen only blocks below `n` units, nothing fits. */
  lemma NothingFits(h: Heap, n: int)
    requires Linked(h) && n >= 1
    requires forall i :: 0 <= i < |h.nodes| ==> h.mem[h.nodes[i]].size < n
    ensures !Fits(h.blocks, h.live, n)
  {
    forall a | a in h.blocks && a !in h.live ensures h.blocks[a] < n {
      var i :| 0 <= i < |h.nodes| && h.nodes[i] == a;
    }
  }

  // ---------- the search of malloc() ----------

  lemma EmptyHeap(base: int, mem: map<int, Header>)
    ensures Linked(Heap(base, mem[base := Header(base, 0)], [base], map[], {}))
    ensures Coalesced(map[], {}) && Tiles(base, map[], {})
  {
  }

  lemma FitsLess(blocks: map<int, int>, live: set<int>, n: int, m: int)
    requires Fits(blocks, live, n) && m <= n
    ensures Fits(blocks, live, m)
  {
  }

  lemma KeptTrans(live: set<int>, a: map<int, int>, b: map<int, int>, c: map<int, int>)
    requires Kept(live, a, b) && Kept(live, b, c)
    ensures Kept(live, a, c)
  {
  }

  lemma KeptAside(live: set<int>, before: map<int, int>, a: int, n: int, after: map<int, int>)
    requires Kept(live, before, before) && Kept(live, before[a := n], after) && a !in before
    ensures Kept(live, before, after)
  {
  }

  lemma Obtained(h: Heap, hp: int, n: uint, junk: int)
    ensures Obtain(h, hp, n, junk) == h.(mem := h.mem[hp := Header(junk, n)], blocks := h.blocks[hp := n], live := h.live + {hp})
  {
  }

  lemma LiveBlocks(h: Heap)
    requires Linked(h)
    ensures Kept(h.live, h.blocks, h.blocks)
  {
  }

  lemma InRange(h: Heap, j: int)
    requires Linked(h) && 0 <= j < |h.nodes|
    ensures h.nodes[j] in h.mem && h.nodes[j] >= h.base
  {
    assert h.nodes[0] <= h.nodes[j];
  }

  /** Headers passed since the search left `freep` (index `f`), up to but not including
      index `j`, are all below `n` units. */
  ghost predicate Small(h: Heap, n: int, f: int, j: int) {
    && 0 <= f < |h.nodes| && 0 <= j < |h.nodes|
    && forall i :: 0 <= i < |h.nodes| && Steps(|h.nodes|, i, f) > Steps(|h.nodes|, j, f) ==>
         h.nodes[i] in h.mem && h.mem[h.nodes[i]].size < n
  }

  lemma FoundIndex(h: Heap, j: int, n: int)
    requires Linked(h) && 0 <= j < |h.nodes| && h.mem[h.nodes[j]].size >= n >= 1
    ensures j >= 1
  {
  }

  lemma FoundFits(h: Heap, j: int, n: int)
    requires Linked(h) && 1 <= j < |h.nodes| && h.mem[h.nodes[j]].size >= n
    ensures Fits(h.blocks, h.live, n)
  {
    ListedNodes(h, j);
    assert h.nodes[j] in h.blocks && h.nodes[j] !in h.live && h.blocks[h.nodes[j]] >= n;
  }

  lemma StillSmall(h: Heap, n: int, f: int, j: int)
    requires Linked(h) && Small(h, n, f, j) && h.mem[h.nodes[j]].size < n
    ensures j != f ==> Small(h, n, f, After(|h.nodes|, j))
  {
    hide Listed, Ring;
    InRange(h, j);
    if j != f {
      forall i | 0 <= i < |h.nodes| && Steps(|h.nodes|, i, f) > Steps(|h.nodes|, After(|h.nodes|, j), f)
        ensures h.nodes[i] in h.mem && h.mem[h.nodes[i]].size < n
      {
        assert i == j || Steps(|h.nodes|, i, f) > Steps(|h.nodes|, j, f);
      }
    }
  }

  lemma WholeLap(h: Heap, n: int, f: int, j: int)
    requires Linked(h) && Small(h, n, f, j) && h.mem[h.nodes[j]].size < n && h.nodes[j] == h.nodes[f] && n >= 1
    ensures j == f && !Fits(h.blocks, h.live, n)
  {
    assert j == f;
    forall i | 0 <= i < |h.nodes| ensures h.mem[h.nodes[i]].size < n {
      assert i == f || Steps(|h.nodes|, i, f) > 0;
    }
    NothingFits(h, n);
  }

  /** The search stands at `p`, header number `j`, with `prevp` before it, having left `freep`. */
  ghost predicate At(h: Heap, n: int, freep: int, prevp: int, p: int, f: int, j: int) {
    && 0 <= f < |h.nodes| && h.nodes[f] == freep && 0 <= j < |h.nodes| && h.nodes[j] == p
    && (exists i {:trigger h.nodes[i]} :: 0 <= i < |h.nodes| && h.nodes[i] == prevp && j == After(|h.nodes|, i))
    && Small(h, n, f, j)
  }

  lemma Started(h: Heap, n: int, f: int)
    requires Linked(h) && 0 <= f < |h.nodes|
    ensures h.nodes[f] in h.mem
    ensures At(h, n, h.nodes[f], h.nodes[f], h.mem[h.nodes[f]].ptr, f, After(|h.nodes|, f))
  {
    NextNode(h, f);
  }

  lemma Advance(h: Heap, n: int, freep: int, prevp: int, p: int, f: int, j: int)
    requires Linked(h) && At(h, n, freep, prevp, p, f, j) && h.mem[p].size < n && p != freep
    ensures var j2 := After(|h.nodes|, j);
            At(h, n, freep, p, h.mem[p].ptr, f, j2) && Steps(|h.nodes|, j2, f) < Steps(|h.nodes|, j, f)
  {
    NextNode(h, j);
    StillSmall(h, n, f, j);
    hide Linked, Small;
  }

  /** Where the search has found room: the header before it in the list is `prevp`. */
  lemma Found(h: Heap, n: int, freep: int, prevp: int, p: int, f: int, j: int)
    requires Linked(h) && At(h, n, freep, prevp, p, f, j) && h.mem[p].size >= n >= 1
    ensures 1 <= j < |h.nodes| && h.nodes[j] == p && h.nodes[j-1] == prevp && Fits(h.blocks, h.live, n)
  {
    FoundIndex(h, j, n);
    FoundFits(h, j, n);
  }

  lemma AtMember(h: Heap, n: int, freep: int, prevp: int, p: int, f: int, j: int)
    requires Linked(h) && At(h, n, freep, prevp, p, f, j)
    ensures p in h.mem && 0 <= f < |h.nodes| && 0 <= j < |h.nodes|
  {
  }

  lemma Lapped(h: Heap, n: int, freep: int, prevp: int, f: int, j: int)
    requires Linked(h) && At(h, n, freep, prevp, freep, f, j) && h.mem[freep].size < n && n >= 1
    ensures !Fits(h.blocks, h.live, n)
  {
    WholeLap(h, n, f, j);
  }

  lemma ObtainUnits(blocks: map<int, int>, live: set<int>, hp: int, n: int)
    requires hp !in blocks && n >= 1
    ensures MergedUnits(blocks[hp := n], live + {hp}, hp, n) == MergedUnits(blocks, live, hp, n)
  {
    var b, l := blocks[hp := n], live + {hp};
    assert (set a | a in b && a !in l && a + b[a] == hp) == (set a | a in blocks && a !in live && a + blocks[a] == hp);
  }

  // ---------- the allocator ----------

  /** Units for a request: the bytes rounded up, plus the header. */
  function Units(nbytes: uint): (n: uint)
    ensures n >= 1 && UNIT * (n - 1) >= nbytes && UNIT * (n - 1) < nbytes + UNIT
  {
    (nbytes + UNIT - 1) / UNIT + 1
  }

  /** Units `morecore` asks sbrk for. */
  function Grow(n: uint): uint {
    if n < 4096 then 4096 else n
  }

  /** The `int` that reaches sbrk when `morecore` passes `bytes`. */
  function AsInt(bytes: nat): int {
    var w := bytes % 0x1_0000_0000;
    if w <= INT_MAX then w else w - 0x1_0000_0000
  }

  /** sbrk is asked for the size `morecore` then records exactly when the rounded request
      fits in an int; from 2 GiB on it is asked to shrink, or for almost nothing. */
  lemma SbrkArgument(nbytes: uint)
    ensures AsInt(UNIT * Grow(Units(nbytes))) == UNIT * Grow(Units(nbytes)) <==> UNIT * Units(nbytes) <= INT_MAX
    ensures UNIT * Units(nbytes) > INT_MAX ==> AsInt(UNIT * Grow(Units(nbytes))) <= UNIT
  {
  }

  lemma GrowInt(n: uint)
    ensures UNIT * Grow(n) <= INT_MAX <==> UNIT * n <= INT_MAX
  {
  }

  class Allocator {
    const base: int             // &base
    var mem: map<int, Header>
    var freep: int              // 0 before the first call
    ghost var nodes: seq<int>
    ghost var blocks: map<int, int>
    ghost var live: set<int>
    ghost var arena: set<int>   // every unit obtained from sbrk

    ghost function View(): Heap
      reads this
    {
      Heap(base, mem, nodes, blocks, live)
    }

    ghost predicate Valid()
      reads this
    {
      && base > 0
      && (freep == 0 ==> nodes == [] && live == {} && blocks == map[] && arena == {})
      && (freep != 0 ==> freep in nodes && Linked(View()) && Coalesced(blocks, live) && Tiles(base, blocks, arena))
    }

    constructor (base: int)
      requires base > 0
      ensures Valid() && this.base == base && freep == 0
    {
      this.base, mem, freep := base, map[], 0;
      nodes, blocks, live, arena := [], map[], {}, {};
    }

    /** The loop of `free`: the free header with the greatest address below `bp`. */
    method FindPlace(bp: int) returns (p: int, ghost k: int)
      requires Valid() && bp in live
      ensures Slot(nodes, bp, k) && p == nodes[k]
    {
      assert bp !in nodes && nodes[0] < bp;
      k := FindSlot(nodes, bp);
      ghost var j :| 0 <= j < |nodes| && nodes[j] == freep;
      p := freep;
      SearchStops(View(), bp, j, k);
      while !(bp > p && bp < mem[p].ptr)
        invariant 0 <= j < |nodes| && p == nodes[j]
        invariant (bp > p && bp < mem[p].ptr) || (p >= mem[p].ptr && (bp > p || bp < mem[p].ptr)) <==> j == k
        decreases Steps(|nodes|, j, k)
      {
        if p >= mem[p].ptr && (bp > p || bp < mem[p].ptr) {
          break;
        }
        NextNode(View(), j);
        p := mem[p].ptr;
        j := After(|nodes|, j);
        SearchStops(View(), bp, j, k);
      }
    }

    /** The block goes back to the free list, merged with the free blocks it touches. No other
        live block is affected and no unit is lost, exactly when the merged size is below 2^32;
        `wide`, which only the model computes, says when it is not. */
    method Free(ap: int) returns (wide: bool)
      requires Valid() && ap - 1 in live
      modifies this
      ensures ap - 1 in old(blocks) && (wide <==> old(MergedUnits(blocks, live, ap - 1, blocks[ap - 1])) >= UINT)
      ensures Sound(base, mem, live, arena) <==> !wide
      ensures |arena| < UINT ==> !wide
      ensures freep != 0 && live == old(live) - {ap - 1} && arena == old(arena)
      ensures !wide ==> Valid() && Kept(live, old(blocks), blocks) && Fits(blocks, live, old(blocks[ap - 1]))
    {
      hide Linked, Apart, FreeHeap, Coalesced, Tiles, Ring, Fits, MergedUnits, Sound, Word;
      var bp := ap - 1;
      var p, k := FindPlace(bp);
      ghost var h := View();
      FreeKeeps(h, arena, bp, k);
      FreeSound(h, arena, bp, k);
      ArenaBounds(h, arena, bp, k);
      TouchedSum(h, bp, k);
      ghost var f := FreeHeap(h, bp, k);
      var sum := mem[bp].size;
      if bp + mem[bp].size == mem[p].ptr {
        var q := mem[p].ptr;
        sum := sum + mem[q].size;
        mem := mem[bp := Header(mem[q].ptr, Word(mem[bp].size + mem[q].size))];
      } else {
        mem := mem[bp := Header(mem[p].ptr, mem[bp].size)];
      }
      if p + mem[p].size == bp {
        sum := sum + mem[p].size;
        mem := mem[p := Header(mem[bp].ptr, Word(mem[p].size + mem[bp].size))];
      } else {
        mem := mem[p := Header(bp, mem[p].size)];
      }
      freep := p;
      nodes, blocks, live := f.nodes, f.blocks, f.live;
      wide := sum >= UINT;
    }

    /** New memory from sbrk becomes one free block; `brk` is the address sbrk would return,
        or SBRK_ERROR. `lost`, which only the model computes, says that the headers no longer
        account for the memory there is. */
    method Morecore(nu: uint, brk: int) returns (r: int, lost: bool)
      requires Valid() && freep != 0
      requires brk != SBRK_ERROR && UNIT * Grow(nu) <= INT_MAX ==> brk > base && Span(brk, Grow(nu)) !! arena
      modifies this
      ensures live == old(live)
      ensures lost <==> brk != SBRK_ERROR && (UNIT * Grow(nu) > INT_MAX || old(MergedUnits(blocks, live, brk, Grow(nu))) >= UINT)
      ensures lost && UNIT * Grow(nu) <= INT_MAX ==> !Sound(base, mem, live, arena)
      ensures UNIT * Grow(nu) <= INT_MAX && |old(arena)| + Grow(nu) < UINT ==> !lost
      ensures lost && UNIT * Grow(nu) <= INT_MAX ==> arena == old(arena) + Span(brk, Grow(nu))
      ensures !lost ==> Valid() && freep != 0 && Kept(live, old(blocks), blocks)
      ensures brk == SBRK_ERROR ==> r == 0 && arena == old(arena) && blocks == old(blocks)
      ensures brk != SBRK_ERROR && !lost ==> r == freep && arena == old(arena) + Span(brk, Grow(nu)) && Fits(blocks, live, nu)
    {
      hide Linked, Coalesced, Tiles, Fits, Ring, MergedUnits, Sound, Kept, Span, Obtain;
      LiveBlocks(View());
      var n := if nu < 4096 then 4096 else nu;
      if brk == SBRK_ERROR {
        return 0, false;
      }
      if UNIT * n > INT_MAX {
        return 0, true;
      }
      var hp := brk;
      var junk := if hp in mem then mem[hp].ptr else 0;
      ObtainKeeps(View(), arena, hp, n, junk);
      ObtainUnits(blocks, live, hp, n);
      Obtained(View(), hp, n, junk);
      ghost var was := blocks;
      mem := mem[hp := Header(junk, n)];
      blocks, live, arena := blocks[hp := n], live + {hp}, arena + Span(hp, n);
      SpanSize(hp, n);
      lost := Free(hp + 1);
      if !lost {
        FitsLess(blocks, live, n, nu);
        KeptAside(live, was, hp, n, blocks);
      }
      r := freep;
    }

    /** The first call makes the list: `base` alone. */
    method StartList()
      requires Valid()
      modifies this`mem, this`freep, this`nodes
      ensures Valid() && freep != 0
    {
      if freep == 0 {
        EmptyHeap(base, mem);
        mem := mem[base := Header(base, 0)];
        freep := base;
        nodes := [base];
      }
    }

    /** The branch of `malloc` that has found room: hand out all of `p` or its tail. */
    method Take(prevp: int, p: int, nunits: uint, ghost j: int) returns (r: int)
      requires Valid() && freep != 0 && 1 <= j < |nodes| && nodes[j] == p && nodes[j-1] == prevp
      requires p in mem && 1 <= nunits <= mem[p].size
      modifies this
      ensures Valid() && freep != 0 && arena == old(arena)
      ensures r > 1 && r - 1 !in old(live) && live == old(live) + {r - 1}
      ensures r - 1 in blocks && blocks[r - 1] == nunits
      ensures Kept(old(live), old(blocks), blocks)
    {
      hide Linked, Coalesced, Tiles, Ring;
      ghost var h := View();
      ListedNodes(h, j);
      InRange(h, j);
      InRange(h, j - 1);
      LiveBlocks(h);
      if mem[p].size == nunits {
        TakeWhole(h, j);
        mem := mem[prevp := Header(mem[p].ptr, mem[prevp].size)];
        nodes, live := Unlink(h, j).nodes, live + {p};
        r := p + 1;
      } else {
        var b := p + (mem[p].size - nunits);
        var junk := if b in mem then mem[b].ptr else 0;
        TakeTail(h, arena, j, nunits, junk);
        mem := mem[p := Header(mem[p].ptr, mem[p].size - nunits)];
        mem := mem[b := Header(junk, nunits)];
        blocks, live := Split(h.blocks, p, nunits), live + {b};
        r := b + 1;
      }
      freep := prevp;
    }

    /** First fit from where the last call left off, growing the heap at most once. The
        block returned is new, big enough, and overlaps nothing; `malloc` fails exactly when
        nothing fits and sbrk refuses. When the heap grows, all this holds exactly when sbrk is
        asked for the size recorded and that size, merged, is below 2^32; otherwise `lost`. */
    method Malloc(nbytes: uint, brk: int) returns (r: int, lost: bool)
      requires Valid()
      requires brk != SBRK_ERROR && UNIT * Units(nbytes) <= INT_MAX ==> brk > base && Span(brk, Grow(Units(nbytes))) !! arena
      modifies this
      ensures lost <==> brk != SBRK_ERROR && !old(Fits(blocks, live, Units(nbytes)))
                        && (UNIT * Units(nbytes) > INT_MAX || old(MergedUnits(blocks, live, brk, Grow(Units(nbytes)))) >= UINT)
      ensures lost && UNIT * Units(nbytes) <= INT_MAX ==> !Sound(base, mem, live, arena)
      ensures UNIT * Units(nbytes) <= INT_MAX && |old(arena)| + Grow(Units(nbytes)) < UINT ==> !lost
      ensures !lost ==> Valid() && Kept(old(live), old(blocks), blocks)
      ensures !lost ==> (r == 0 <==> brk == SBRK_ERROR && !old(Fits(blocks, live, Units(nbytes))))
      ensures !lost && r == 0 ==> live == old(live) && blocks == old(blocks)
      ensures !lost && r != 0 ==> r - 1 !in old(live) && live == old(live) + {r - 1} && r - 1 in blocks
      ensures !lost && r != 0 ==> blocks[r - 1] == Units(nbytes) && UNIT * (blocks[r - 1] - 1) >= nbytes
      ensures !lost ==> arena == if r == 0 || old(Fits(blocks, live, Units(nbytes))) then old(arena)
                                 else old(arena) + Span(brk, Grow(Units(nbytes)))
    {
      hide Linked, Coalesced, Tiles, Fits, Ring, Kept, Span, At, MergedUnits, Sound, Units, Grow, Steps;
      var nunits := Units(nbytes);
      GrowInt(nunits);
      StartList();
      var prevp := freep;
      ghost var grown := false;
      ghost var f :| 0 <= f < |nodes| && nodes[f] == freep;
      ghost var j := After(|nodes|, f);
      LiveBlocks(View());
      Started(View(), nunits, f);
      var p := mem[prevp].ptr;
      while true
        invariant Valid() && freep != 0 && At(View(), nunits, freep, prevp, p, f, j)
        invariant 0 <= f < |nodes| && 0 <= j < |nodes|
        invariant !grown ==> blocks == old(blocks) && arena == old(arena)
        invariant grown ==> !old(Fits(blocks, live, nunits)) && Fits(blocks, live, nunits) && brk != SBRK_ERROR
        invariant grown ==> UNIT * nunits <= INT_MAX && old(MergedUnits(blocks, live, brk, Grow(nunits))) < UINT
        invariant grown ==> arena == old(arena) + Span(brk, Grow(nunits))
        invariant live == old(live) && Kept(live, old(blocks), blocks)
        decreases !grown, Steps(|nodes|, j, f)
      {
        AtMember(View(), nunits, freep, prevp, p, f, j);
        if mem[p].size >= nunits {
          Found(View(), nunits, freep, prevp, p, f, j);
          ghost var b := blocks;
          r := Take(prevp, p, nunits, j);
          KeptTrans(old(live), old(blocks), b, blocks);
          return r, false;
        }
        if p == freep {
          Lapped(View(), nunits, freep, prevp, f, j);
          ghost var b := blocks;
          p, lost := Morecore(nunits, brk);
          if lost {
            return 0, true;
          }
          KeptTrans(live, old(blocks), b, blocks);
          if p == 0 {
            return 0, false;
          }
          grown := true;
          f :| 0 <= f < |nodes| && nodes[f] == freep;
          Started(View(), nunits, f);
          j := After(|nodes|, f);
        } else {
          Advance(View(), nunits, freep, prevp, p, f, j);
          AtMember(View(), nunits, freep, p, mem[p].ptr, f, After(|nodes|, j));
          j := After(|nodes|, j);
        }
        prevp := p;
        p := mem[p].ptr;
      }
    }
  }
  // ---------- a run that loses memory ----------

  const LARGE: uint := 0x07ff_ffff   // units of the largest request sbrk can be asked for

  function Cell(j: int): int {
    2 + j * LARGE
  }

  ghost function Cells(lo: int, hi: int): (s: set<int>)
    ensures forall a :: a in s <==> exists j :: lo <= j < hi && a == Cell(j)
  {
    set j | lo <= j < hi :: Cell(j)
  }

  /** Memory is `hi` cells of LARGE units; those from `lo` on are live blocks. */
  ghost predicate Row(blocks: map<int, int>, live: set<int>, arena: set<int>, lo: int, hi: int) {
    && arena == Span(2, hi * LARGE) && live == Cells(lo, hi)
    && forall j :: lo <= j < hi ==> Cell(j) in blocks && blocks[Cell(j)] == LARGE
  }

  lemma BlockWithin(base: int, blocks: map<int, int>, arena: set<int>, hi: nat, c: int)
    requires Tiles(base, blocks, arena) && arena == Span(2, hi * LARGE) && c in blocks
    ensures 2 <= c && c + blocks[c] <= Cell(hi)
  {
    assert Covered(blocks, c) && Covered(blocks, c + blocks[c] - 1);
  }

  /** A block is one of the cells, or past those that are live. */
  lemma BlockIsCell(base: int, blocks: map<int, int>, arena: set<int>, hi: nat, n: nat, c: int)
    requires Tiles(base, blocks, arena) && arena == Span(2, hi * LARGE) && c in blocks
    requires forall j :: 0 <= j < n ==> Cell(j) in blocks && blocks[Cell(j)] == LARGE
    ensures c in Cells(0, n) || c >= Cell(n)
  {
    BlockWithin(base, blocks, arena, hi, c);
    var j := (c - 2) / LARGE;
    assert Cell(j) <= c < Cell(j) + LARGE;
    if j < n {
      assert Cell(j) in blocks;
      ApartAt(base, blocks, Cell(j), c);
    }
  }

  /** One more cell, all of it live. */
  lemma RowGrows(base: int, was: map<int, int>, blocks: map<int, int>, live: set<int>, arena: set<int>, n: nat, a: int)
    requires Tiles(base, blocks, arena) && arena == Span(2, (n + 1) * LARGE) && Kept(Cells(0, n), was, blocks)
    requires forall j :: 0 <= j < n ==> Cell(j) in was && was[Cell(j)] == LARGE
    requires a !in Cells(0, n) && live == Cells(0, n) + {a} && a in blocks && blocks[a] == LARGE
    ensures Row(blocks, live, arena, 0, n + 1)
  {
    forall j | 0 <= j < n ensures Cell(j) in blocks && blocks[Cell(j)] == LARGE {
      assert Cell(j) in Cells(0, n);
    }
    hide Tiles;
    BlockIsCell(base, blocks, arena, n + 1, n, a);
    BlockWithin(base, blocks, arena, n + 1, a);
    assert a == Cell(n);
  }

  /** Nothing is free, so nothing fits and new memory touches no free block. */
  lemma RowFull(base: int, blocks: map<int, int>, live: set<int>, arena: set<int>, n: nat, a: int, size: int)
    requires Tiles(base, blocks, arena) && Row(blocks, live, arena, 0, n)
    ensures !Fits(blocks, live, size) && MergedUnits(blocks, live, a, size) == size
  {
    hide Tiles, Span;
    forall c | c in blocks ensures c in live {
      BlockIsCell(base, blocks, arena, n, n, c);
      BlockWithin(base, blocks, arena, n, c);
      BlockSize(base, blocks, arena, c);
    }
    LeftNone(blocks, live, a);
  }

  lemma BlockSize(base: int, blocks: map<int, int>, arena: set<int>, c: int)
    requires Tiles(base, blocks, arena) && c in blocks
    ensures blocks[c] >= 1 && c > base
  {
  }

  /** With the first `lo` cells free and merged, the next one to go touches exactly them. */
  lemma RowMerges(base: int, blocks: map<int, int>, live: set<int>, arena: set<int>, lo: nat, hi: nat)
    requires Tiles(base, blocks, arena) && Coalesced(blocks, live) && Row(blocks, live, arena, lo, hi) && lo < hi
    ensures MergedUnits(blocks, live, Cell(lo), LARGE) == (lo + 1) * LARGE
  {
    RightCell(base, blocks, live, arena, lo, hi);
    if lo == 0 {
      forall c | c in blocks && c !in live ensures c + blocks[c] != Cell(lo) {
        BlockWithin(base, blocks, arena, hi, c);
      }
      LeftNone(blocks, live, Cell(lo));
    } else {
      FirstCells(base, blocks, live, arena, lo, hi);
      LeftIs(base, blocks, live, 2, Cell(lo));
    }
  }

  lemma RightCell(base: int, blocks: map<int, int>, live: set<int>, arena: set<int>, lo: nat, hi: nat)
    requires Tiles(base, blocks, arena) && Row(blocks, live, arena, lo, hi) && lo < hi
    ensures RightUnits(blocks, live, Cell(lo) + LARGE) == 0
  {
    assert Cell(lo) + LARGE == Cell(lo + 1);
    if Cell(lo + 1) in blocks {
      BlockWithin(base, blocks, arena, hi, Cell(lo + 1));
      BlockSize(base, blocks, arena, Cell(lo + 1));
      assert lo + 1 < hi;
    }
  }

  lemma FirstCells(base: int, blocks: map<int, int>, live: set<int>, arena: set<int>, lo: nat, hi: nat)
    requires Tiles(base, blocks, arena) && Coalesced(blocks, live) && Row(blocks, live, arena, lo, hi) && 0 < lo < hi
    ensures 2 in blocks && 2 !in live && blocks[2] == lo * LARGE
  {
    StartsAt(base, blocks, arena, hi, 2);
    assert Cell(lo) in blocks;
    ApartAt(base, blocks, 2, Cell(lo));
    var e := 2 + blocks[2];
    assert !Touch(blocks, live, 2, e);
    if e < Cell(lo) {
      StartsAt(base, blocks, arena, hi, e);
    }
  }

  /** A unit of memory at which no block before it reaches starts a block. */
  lemma StartsAt(base: int, blocks: map<int, int>, arena: set<int>, hi: nat, u: int)
    requires Tiles(base, blocks, arena) && arena == Span(2, hi * LARGE) && 2 <= u < Cell(hi)
    requires u == 2 || (2 in blocks && u == 2 + blocks[2])
    ensures u in blocks
  {
    assert u in arena && Covered(blocks, u);
    var c :| c in blocks && c <= u < c + blocks[c];
    BlockWithin(base, blocks, arena, hi, c);
    ApartAt(base, blocks, 2, c);
  }

  lemma RowNext(blocks: map<int, int>, live: set<int>, arena: set<int>, n: nat)
    requires Row(blocks, live, arena, 0, n)
    ensures Span(Cell(n), LARGE) !! arena && arena + Span(Cell(n), LARGE) == Span(2, (n + 1) * LARGE) && Cell(n) >= 2
    ensures live == Cells(0, n) && forall j :: 0 <= j < n ==> Cell(j) in blocks && blocks[Cell(j)] == LARGE
  {
    hide Span, Cells;
    var s := Span(Cell(n), LARGE);
    assert forall u :: u in s ==> u !in arena;
    assert forall u :: u in arena + s <==> u in Span(2, (n + 1) * LARGE);
  }

  lemma RowShrinks(was: map<int, int>, blocks: map<int, int>, live: set<int>, arena: set<int>, lo: nat, hi: nat)
    requires Row(was, live + {Cell(lo)}, arena, lo, hi) && live == Cells(lo, hi) - {Cell(lo)} && Kept(live, was, blocks)
    ensures Row(blocks, live, arena, lo + 1, hi)
  {
    assert live == Cells(lo + 1, hi);
    forall j | lo + 1 <= j < hi ensures Cell(j) in blocks && blocks[Cell(j)] == LARGE {
      assert Cell(j) in live;
    }
  }

  lemma RowCell(blocks: map<int, int>, live: set<int>, arena: set<int>, lo: nat, hi: nat)
    requires Row(blocks, live, arena, lo, hi) && lo < hi
    ensures Cell(lo) in live && Cell(lo) in blocks && blocks[Cell(lo)] == LARGE && live == Cells(lo, hi)
    ensures live - {Cell(lo)} + {Cell(lo)} == live && (lo + 1 == hi ==> live - {Cell(lo)} == {})
  {
  }

  /** 33 blocks of the largest size, contiguous and freed in address order: at the last one
      the size of the merged block wraps, and no reading of the heap accounts for all units. */
  method WrapRun() returns (al: Allocator)
    ensures fresh(al) && al.live == {} && !Sound(al.base, al.mem, al.live, al.arena)
  {
    hide Tiles, Coalesced, Linked, Span, MergedUnits, Fits, Sound, Kept;
    al := new Allocator(1);
    EmptyHeap(1, map[]);
    assert Units(0x7fff_ffe0) == LARGE == Grow(LARGE);
    assert Row(al.blocks, al.live, al.arena, 0, 0);
    hide Units, Grow, Row;
    for i := 0 to 33
      invariant fresh(al) && al.Valid() && al.base == 1 && (i > 0 ==> al.freep != 0)
      invariant Tiles(al.base, al.blocks, al.arena) && Row(al.blocks, al.live, al.arena, 0, i)
    {
      RowNext(al.blocks, al.live, al.arena, i);
      RowFull(al.base, al.blocks, al.live, al.arena, i, Cell(i), LARGE);
      ghost var was := al.blocks;
      var r, lost := al.Malloc(0x7fff_ffe0, Cell(i));
      RowGrows(al.base, was, al.blocks, al.live, al.arena, i, r - 1);
    }
    for i := 0 to 32
      invariant fresh(al) && al.Valid() && al.base == 1 && al.freep != 0 && Row(al.blocks, al.live, al.arena, i, 33)
    {
      RowCell(al.blocks, al.live, al.arena, i, 33);
      RowMerges(al.base, al.blocks, al.live, al.arena, i, 33);
      ghost var was := al.blocks;
      var wide := al.Free(Cell(i) + 1);
      RowShrinks(was, al.blocks, al.live, al.arena, i, 33);
    }
    RowCell(al.blocks, al.live, al.arena, 32, 33);
    RowMerges(al.base, al.blocks, al.live, al.arena, 32, 33);
    var wide := al.Free(Cell(32) + 1);
  }
}
