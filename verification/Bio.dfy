/** The LRU list of the buffer cache (bio.c:30-55, bio.c:120-141).

    The source links the buffers through `prev` and `next` pointers around a sentinel
    `head`.  A pointer to `bcache.buf[i]` is the index i here, and `&bcache.head` is HEAD. */
module LruRing {

  const NBUF: nat := 30
  const HEAD: nat := NBUF

  // Position k of the walk head, order[0], .., order[n-1], head.
  ghost function At(order: seq<nat>, k: nat): nat
    requires k <= |order| + 1
  {
    if k == 0 || k == |order| + 1 then HEAD else order[k - 1]
  }

  // `next` and `prev` link exactly the walk above, in both directions.
  ghost predicate Linked(order: seq<nat>, next: seq<nat>, prev: seq<nat>) {
    && |next| == |prev| == NBUF + 1
    && (forall k | 0 <= k < |order| :: order[k] < NBUF)
    && (forall j, k | 0 <= j < k < |order| :: order[j] != order[k])
    && (forall k | 0 <= k <= |order| :: At(order, k) <= NBUF && next[At(order, k)] == At(order, k + 1))
    && (forall k | 1 <= k <= |order| + 1 :: At(order, k) <= NBUF && prev[At(order, k)] == At(order, k - 1))
  }

  // The list holds every buffer exactly once.
  ghost predicate Ring(order: seq<nat>, next: seq<nat>, prev: seq<nat>) {
    && Linked(order, next, prev)
    && (forall i | 0 <= i < NBUF :: i in order)
  }

  // Most recently released first: strictly decreasing release times along the list.
  ghost predicate ByRelease(order: seq<nat>, stamp: seq<int>) {
    && |stamp| == NBUF
    && (forall k | 0 <= k < |order| :: order[k] < NBUF)
    && (forall j, k | 0 <= j < k < |order| :: stamp[order[j]] > stamp[order[k]])
  }

  datatype Facet = Links | All | Sorted | Past

  ghost predicate Side(f: Facet, order: seq<nat>, next: seq<nat>, prev: seq<nat>, stamp: seq<int>, clock: int) {
    match f
    case Links => Linked(order, next, prev)
    case All => forall i | 0 <= i < NBUF :: i in order
    case Sorted => ByRelease(order, stamp)
    case Past => |stamp| == NBUF && forall i | 0 <= i < NBUF :: stamp[i] < clock
  }

  /** The list holds every buffer once, the most recently released first. */
  ghost predicate Lru(order: seq<nat>, next: seq<nat>, prev: seq<nat>, stamp: seq<int>, clock: int) {
    |stamp| == NBUF && forall f: Facet :: Side(f, order, next, prev, stamp, clock)
  }

  lemma OpenLru(order: seq<nat>, next: seq<nat>, prev: seq<nat>, stamp: seq<int>, clock: int)
    requires Lru(order, next, prev, stamp, clock)
    ensures Ring(order, next, prev) && ByRelease(order, stamp) && forall i | 0 <= i < NBUF :: stamp[i] < clock
  {
    assert Side(Links, order, next, prev, stamp, clock) && Side(All, order, next, prev, stamp, clock);
    assert Side(Sorted, order, next, prev, stamp, clock) && Side(Past, order, next, prev, stamp, clock);
  }

  lemma CloseLru(order: seq<nat>, next: seq<nat>, prev: seq<nat>, stamp: seq<int>, clock: int)
    requires Ring(order, next, prev) && ByRelease(order, stamp) && forall i | 0 <= i < NBUF :: stamp[i] < clock
    ensures Lru(order, next, prev, stamp, clock)
  {
  }

  ghost function Without(order: seq<nat>, k: nat): seq<nat>
    requires k < |order|
  {
    order[..k] + order[k + 1..]
  }

  lemma DistinctOnWalk(order: seq<nat>)
    requires forall k | 0 <= k < |order| :: order[k] < NBUF
    requires forall j, k | 0 <= j < k < |order| :: order[j] != order[k]
    ensures forall j, k | 0 <= j < k <= |order| + 1 && (j != 0 || k != |order| + 1) :: At(order, j) != At(order, k)
  {
  }

  lemma WithoutAt(order: seq<nat>, k: nat, m: nat)
    requires k < |order| && m <= |order|
    ensures At(Without(order, k), m) == At(order, if m <= k then m else m + 1)
  {
  }

  // One link of the list without order[k].
  lemma UnlinkAt(order: seq<nat>, next: seq<nat>, prev: seq<nat>, k: nat, m: nat)
    requires Linked(order, next, prev) && k < |order| && m < |order|
    requires order[k] < NBUF && next[order[k]] <= NBUF && prev[order[k]] <= NBUF
    ensures var b, rest := order[k], Without(order, k);
            && At(rest, m) <= NBUF && next[prev[b] := next[b]][At(rest, m)] == At(rest, m + 1)
            && At(rest, m + 1) <= NBUF && prev[next[b] := prev[b]][At(rest, m + 1)] == At(rest, m)
  {
    WithoutAt(order, k, m);
    WithoutAt(order, k, m + 1);
    DistinctOnWalk(order);
    assert At(order, k + 1) == order[k];
    assert next[order[k]] == At(order, k + 2) && prev[order[k]] == At(order, k);
  }

  // b->next->prev = b->prev; b->prev->next = b->next;
  lemma Unlink(order: seq<nat>, next: seq<nat>, prev: seq<nat>, k: nat)
    requires Linked(order, next, prev) && k < |order|
    ensures order[k] < NBUF && next[order[k]] <= NBUF && prev[order[k]] <= NBUF
    ensures var b := order[k];
            Linked(Without(order, k), next[prev[b] := next[b]], prev[next[b] := prev[b]])
    ensures order[k] !in Without(order, k)
  {
    assert At(order, k + 1) == order[k];
    assert next[order[k]] == At(order, k + 2) && prev[order[k]] == At(order, k);
    var rest := Without(order, k);
    forall m | 0 <= m <= |rest|
      ensures At(rest, m) <= NBUF && next[prev[order[k]] := next[order[k]]][At(rest, m)] == At(rest, m + 1)
    {
      UnlinkAt(order, next, prev, k, m);
    }
    forall m | 1 <= m <= |rest| + 1
      ensures At(rest, m) <= NBUF && prev[next[order[k]] := prev[order[k]]][At(rest, m)] == At(rest, m - 1)
    {
      UnlinkAt(order, next, prev, k, m - 1);
    }
  }

  lemma FrontKeepsAll(order: seq<nat>, k: nat, i: nat)
    requires k < |order| && i in order
    ensures i in [order[k]] + Without(order, k)
  {
    var m :| 0 <= m < |order| && order[m] == i;
    var rest := Without(order, k);
    assert m < k ==> rest[m] == i;
    assert m > k ==> rest[m - 1] == i;
  }

  // Releasing buffer order[k] now keeps the list sorted by release time.
  lemma FrontKeepsOrder(order: seq<nat>, stamp: seq<int>, k: nat, now: int)
    requires ByRelease(order, stamp) && k < |order|
    requires forall j, m | 0 <= j < m < |order| :: order[j] != order[m]
    requires forall i | 0 <= i < NBUF :: stamp[i] < now
    ensures ByRelease([order[k]] + Without(order, k), stamp[order[k] := now])
  {
    var b, rest := order[k], Without(order, k);
    assert forall m | 0 <= m < |rest| :: rest[m] == order[if m < k then m else m + 1] && rest[m] != b;
  }

  // b->next = head.next; b->prev = &head; head.next->prev = b; head.next = b;
  lemma PushFront(order: seq<nat>, next: seq<nat>, prev: seq<nat>, b: nat)
    requires Linked(order, next, prev) && b < NBUF && b !in order
    ensures next[HEAD] <= NBUF
    ensures Linked([b] + order, next[b := next[HEAD]][HEAD := b], prev[b := HEAD][next[HEAD] := b])
  {
    assert At(order, 0) == HEAD && At(order, 1) <= NBUF;
    var o := [b] + order;
    forall m | 2 <= m <= |o| + 1
      ensures At(o, m) == At(order, m - 1)
    {
    }
    assert At(o, 0) == HEAD && At(o, 1) == b;
  }

  // The pointer surgery of brelse on buffer b, in source order.
  function NextAfter(next: seq<nat>, prev: seq<nat>, b: nat): seq<nat>
    requires |next| == |prev| == NBUF + 1 && b < NBUF && next[b] <= NBUF && prev[b] <= NBUF
  {
    var n1 := next[prev[b] := next[b]];
    n1[b := n1[HEAD]][HEAD := b]
  }

  function PrevAfter(next: seq<nat>, prev: seq<nat>, b: nat): seq<nat>
    requires |next| == |prev| == NBUF + 1 && b < NBUF && next[b] <= NBUF && prev[b] <= NBUF
    requires next[prev[b] := next[b]][HEAD] <= NBUF
  {
    var n1 := next[prev[b] := next[b]];
    prev[next[b] := prev[b]][b := HEAD][n1[HEAD] := b]
  }

  /** The surgery turns the ring into the ring with b first and everything else in place. */
  lemma Surgery(order: seq<nat>, next: seq<nat>, prev: seq<nat>, k: nat)
    requires Ring(order, next, prev) && k < |order|
    ensures var b := order[k];
            && b < NBUF && next[b] <= NBUF && prev[b] <= NBUF && next[prev[b] := next[b]][HEAD] <= NBUF
            && Ring([b] + Without(order, k), NextAfter(next, prev, b), PrevAfter(next, prev, b))
  {
    var b := order[k];
    Unlink(order, next, prev, k);
    PushFront(Without(order, k), next[prev[b] := next[b]], prev[next[b] := prev[b]], b);
    forall i | 0 <= i < NBUF
      ensures i in [b] + Without(order, k)
    {
      FrontKeepsAll(order, k, i);
    }
  }
}

/** The buffer cache over the memory disk (bio.c, memide.c).

    Each method is one critical section of the source (under bcache.lock, or under the
    buffer's sleep lock), so a sequence of calls is an interleaving of processes. */
module Bio {
  import opened LruRing
  import opened Options

  const ROOTDEV: nat := 1
  const BWORDS: nat := 128 // 32-bit words in a block of BSIZE bytes

  type Block = s: seq<int> | |s| == BWORDS witness seq(BWORDS, _ => 0)

  datatype Buf = Buf(dev: nat, blockno: nat, valid: bool, dirty: bool,
                     refcnt: nat, locked: bool, data: Block)
  {
    predicate For(d: nat, b: nat) { dev == d && blockno == b }
    predicate Recyclable() { refcnt == 0 && !dirty }
  }

  // Which buffer is the one for a block; buffers never used since boot have dev 0.
  type Index = map<(nat, nat), nat>

  ghost predicate BufOk(u: Buf, i: nat, index: Index, content: seq<Block>) {
    && (u.dev != 0 ==> (u.dev, u.blockno) in index && index[(u.dev, u.blockno)] == i)
    && (u.locked ==> u.refcnt > 0)
    && (u.dirty ==> u.valid)
    && (u.valid ==> u.dev == ROOTDEV && u.blockno < |content| && u.data == content[u.blockno])
  }

  ghost predicate Ahead(bufs: seq<Buf>, index: Index, b: nat) {
    (ROOTDEV, b) in index && index[(ROOTDEV, b)] < |bufs|
    && var u := bufs[index[(ROOTDEV, b)]]; u.valid && (u.dirty || u.locked)
  }

  /** `content[b]` is what was last stored in block b through a buffer.  A block whose disk
      copy is behind has a buffer that is dirty or still locked. */
  ghost predicate Coherent(bufs: seq<Buf>, disk: seq<Block>, content: seq<Block>, index: Index) {
    |bufs| == NBUF && |content| == |disk| && forall a: Aspect :: Part(a, bufs, disk, content, index)
  }

  datatype Aspect = Buffers | Indexed | Contents

  ghost predicate Part(a: Aspect, bufs: seq<Buf>, disk: seq<Block>, content: seq<Block>, index: Index)
    requires |bufs| == NBUF && |content| == |disk|
  {
    match a
    case Buffers => forall i | 0 <= i < NBUF :: BufOk(bufs[i], i, index, content)
    case Indexed => forall k | k in index :: k.0 != 0 && index[k] < NBUF && bufs[index[k]].For(k.0, k.1)
    case Contents => forall b | 0 <= b < |disk| :: content[b] == disk[b] || Ahead(bufs, index, b)
  }

  ghost predicate Facts(bufs: seq<Buf>, disk: seq<Block>, content: seq<Block>, index: Index) {
    && |bufs| == NBUF && |content| == |disk|
    && (forall i | 0 <= i < NBUF :: BufOk(bufs[i], i, index, content))
    && (forall k | k in index :: k.0 != 0 && index[k] < NBUF && bufs[index[k]].For(k.0, k.1))
    && (forall b | 0 <= b < |disk| :: content[b] == disk[b] || Ahead(bufs, index, b))
  }

  lemma Unpack(bufs: seq<Buf>, disk: seq<Block>, content: seq<Block>, index: Index)
    requires Coherent(bufs, disk, content, index)
    ensures Facts(bufs, disk, content, index)
  {
    assert Part(Buffers, bufs, disk, content, index) && Part(Indexed, bufs, disk, content, index);
    assert Part(Contents, bufs, disk, content, index);
  }

  lemma Pack(bufs: seq<Buf>, disk: seq<Block>, content: seq<Block>, index: Index)
    requires Facts(bufs, disk, content, index)
    ensures Coherent(bufs, disk, content, index)
  {
  }

  lemma BufFact(bufs: seq<Buf>, disk: seq<Block>, content: seq<Block>, index: Index, i: nat)
    requires Coherent(bufs, disk, content, index) && i < NBUF
    ensures BufOk(bufs[i], i, index, content)
  {
    Unpack(bufs, disk, content, index);
  }

  // No block of a device has two buffers.
  lemma OneBufferPerBlock(bufs: seq<Buf>, disk: seq<Block>, content: seq<Block>, index: Index, i: nat, j: nat)
    requires Coherent(bufs, disk, content, index)
    requires i < NBUF && j < NBUF && bufs[i].dev != 0 && bufs[i].For(bufs[j].dev, bufs[j].blockno)
    ensures i == j
  {
    Unpack(bufs, disk, content, index);
    assert BufOk(bufs[i], i, index, content) && BufOk(bufs[j], j, index, content);
  }

  ghost function Reindex(index: Index, was: Buf, dev: nat, blockno: nat, i: nat): Index {
    var rest := index - {(was.dev, was.blockno)};
    if dev == 0 then rest else rest[(dev, blockno) := i]
  }

  /** Reusing a clean unreferenced buffer loses nothing: its block's content is on the disk,
      and every block keeps its content. */
  lemma RecycleIsTransparent(bufs: seq<Buf>, disk: seq<Block>, content: seq<Block>, index: Index,
                             i: nat, dev: nat, blockno: nat)
    requires Coherent(bufs, disk, content, index)
    requires i < NBUF && bufs[i].Recyclable()
    requires forall j | 0 <= j < NBUF :: !bufs[j].For(dev, blockno)
    ensures var u := Buf(dev, blockno, false, false, 1, false, bufs[i].data);
            Coherent(bufs[i := u], disk, content, Reindex(index, bufs[i], dev, blockno, i))
    ensures bufs[i].valid ==> bufs[i].blockno < |disk| && disk[bufs[i].blockno] == content[bufs[i].blockno]
    ensures !bufs[i].locked
  {
    Unpack(bufs, disk, content, index);
    assert BufOk(bufs[i], i, index, content);
    var bufs' := bufs[i := Buf(dev, blockno, false, false, 1, false, bufs[i].data)];
    var index' := Reindex(index, bufs[i], dev, blockno, i);
    assert (dev, blockno) !in index;
    forall j | 0 <= j < NBUF
      ensures BufOk(bufs'[j], j, index', content)
    {
      assert BufOk(bufs[j], j, index, content);
    }
    forall b | 0 <= b < |disk|
      ensures content[b] == disk[b] || Ahead(bufs', index', b)
    {
      assert content[b] == disk[b] || Ahead(bufs, index, b);
    }
    Pack(bufs', disk, content, index');
  }

  /** A step on the buffer u of block b that leaves `d` on the disk: the other blocks keep
      their content, and block b may lag behind only while u is dirty or locked. */
  lemma Touch(bufs: seq<Buf>, disk: seq<Block>, content: seq<Block>, index: Index, i: nat, u: Buf, d: Block)
    requires Coherent(bufs, disk, content, index)
    requires i < NBUF && u.For(bufs[i].dev, bufs[i].blockno)
    requires u.valid && u.dev == ROOTDEV && u.blockno < |disk| && (u.locked ==> u.refcnt > 0)
    requires d == u.data || u.dirty || u.locked
    ensures Coherent(bufs[i := u], disk[u.blockno := d], content[u.blockno := u.data], index)
  {
    Unpack(bufs, disk, content, index);
    var bufs', content' := bufs[i := u], content[u.blockno := u.data];
    assert BufOk(bufs[i], i, index, content);
    forall j | 0 <= j < NBUF
      ensures BufOk(bufs'[j], j, index, content')
    {
      assert BufOk(bufs[j], j, index, content);
    }
    forall b | 0 <= b < |disk|
      ensures content'[b] == disk[u.blockno := d][b] || Ahead(bufs', index, b)
    {
      assert content[b] == disk[b] || Ahead(bufs, index, b);
    }
    Pack(bufs', disk[u.blockno := d], content', index);
  }

  // A step that changes only the reference count, or takes the lock.
  lemma Quiet(bufs: seq<Buf>, disk: seq<Block>, content: seq<Block>, index: Index, i: nat, u: Buf)
    requires Coherent(bufs, disk, content, index)
    requires i < NBUF && u == bufs[i].(refcnt := u.refcnt, locked := u.locked)
    requires (u.locked ==> u.refcnt > 0) && (bufs[i].locked ==> u.locked)
    ensures Coherent(bufs[i := u], disk, content, index)
  {
    Unpack(bufs, disk, content, index);
    var bufs' := bufs[i := u];
    forall j | 0 <= j < NBUF
      ensures BufOk(bufs'[j], j, index, content)
    {
      assert BufOk(bufs[j], j, index, content);
    }
    forall b | 0 <= b < |disk|
      ensures content[b] == disk[b] || Ahead(bufs', index, b)
    {
      assert content[b] == disk[b] || Ahead(bufs, index, b);
    }
    Pack(bufs', disk, content, index);
  }

  // What buffer u holds is on the disk, or u is pinned, or it holds nothing.
  ghost predicate Flushed(u: Buf, disk: seq<Block>, content: seq<Block>)
    requires |content| == |disk|
  {
    u.valid && !u.dirty && u.blockno < |disk| ==> content[u.blockno] == disk[u.blockno]
  }

  lemma UnlockContents(bufs: seq<Buf>, disk: seq<Block>, content: seq<Block>, index: Index, i: nat, b: nat)
    requires Coherent(bufs, disk, content, index) && i < NBUF && Flushed(bufs[i], disk, content) && b < |disk|
    ensures content[b] == disk[b] || Ahead(bufs[i := bufs[i].(locked := false)], index, b)
  {
    Unpack(bufs, disk, content, index);
    assert BufOk(bufs[i], i, index, content);
    assert content[b] == disk[b] || Ahead(bufs, index, b);
  }

  // Unlocking buffer i loses sight of nothing exactly when it is flushed.
  lemma Unlock(bufs: seq<Buf>, disk: seq<Block>, content: seq<Block>, index: Index, i: nat)
    requires Coherent(bufs, disk, content, index) && i < NBUF
    ensures Coherent(bufs[i := bufs[i].(locked := false)], disk, content, index) <==> Flushed(bufs[i], disk, content)
  {
    Unpack(bufs, disk, content, index);
    var bufs' := bufs[i := bufs[i].(locked := false)];
    assert BufOk(bufs[i], i, index, content);
    if Flushed(bufs[i], disk, content) {
      forall j | 0 <= j < NBUF ensures BufOk(bufs'[j], j, index, content) { assert BufOk(bufs[j], j, index, content); }
      forall b | 0 <= b < |disk|
        ensures content[b] == disk[b] || Ahead(bufs', index, b)
      {
        UnlockContents(bufs, disk, content, index, i, b);
      }
      Pack(bufs', disk, content, index);
    }
    if Coherent(bufs', disk, content, index) {
      Unpack(bufs', disk, content, index);
      assert bufs[i].valid && !bufs[i].dirty ==> !Ahead(bufs', index, bufs[i].blockno);
    }
  }

  ghost function LockedBlocks(bufs: seq<Buf>): set<nat> {
    set i | 0 <= i < |bufs| && bufs[i].locked && bufs[i].dev == ROOTDEV :: bufs[i].blockno
  }

  ghost function DirtyBlocks(bufs: seq<Buf>): set<nat> {
    set i | 0 <= i < |bufs| && bufs[i].dirty && bufs[i].dev == ROOTDEV :: bufs[i].blockno
  }

  ghost function Flag(s: set<nat>, b: nat, on: bool): set<nat> {
    if on then s + {b} else s - {b}
  }

  lemma FlagsOf(bufs: seq<Buf>, i: nat, u: Buf)
    requires i < |bufs| && u.dev == ROOTDEV
    requires forall j | 0 <= j < |bufs| && j != i :: !bufs[j].For(ROOTDEV, u.blockno)
    requires bufs[i].For(ROOTDEV, u.blockno) || (!bufs[i].locked && !bufs[i].dirty)
    ensures LockedBlocks(bufs[i := u]) == Flag(LockedBlocks(bufs), u.blockno, u.locked)
    ensures DirtyBlocks(bufs[i := u]) == Flag(DirtyBlocks(bufs), u.blockno, u.dirty)
  {
    var bufs' := bufs[i := u];
    assert bufs'[i] == u;
    forall b
      ensures b in LockedBlocks(bufs') <==> b in Flag(LockedBlocks(bufs), u.blockno, u.locked)
      ensures b in DirtyBlocks(bufs') <==> b in Flag(DirtyBlocks(bufs), u.blockno, u.dirty)
    {
      if b != u.blockno {
        if j :| 0 <= j < |bufs| && bufs[j].locked && bufs[j].dev == ROOTDEV && bufs[j].blockno == b {
          assert bufs'[j] == bufs[j];
        }
        if j :| 0 <= j < |bufs| && bufs[j].dirty && bufs[j].dev == ROOTDEV && bufs[j].blockno == b {
          assert bufs'[j] == bufs[j];
        }
      }
    }
  }

  lemma SameFlags(bufs: seq<Buf>, bufs': seq<Buf>)
    requires |bufs| == |bufs'|
    requires forall i | 0 <= i < |bufs| :: bufs'[i] == bufs[i].(data := bufs'[i].data)
    ensures LockedBlocks(bufs') == LockedBlocks(bufs) && DirtyBlocks(bufs') == DirtyBlocks(bufs)
  {
    forall b
      ensures b in LockedBlocks(bufs') <==> b in LockedBlocks(bufs)
      ensures b in DirtyBlocks(bufs') <==> b in DirtyBlocks(bufs)
    {
      if i :| 0 <= i < |bufs| && bufs[i].locked && bufs[i].dev == ROOTDEV && bufs[i].blockno == b {
        assert bufs'[i].locked;
      }
      if i :| 0 <= i < |bufs| && bufs[i].dirty && bufs[i].dev == ROOTDEV && bufs[i].blockno == b {
        assert bufs'[i].dirty;
      }
    }
  }

  /* ---- when bread finds a buffer ---- */

  ghost predicate Cached(bufs: seq<Buf>, b: nat) {
    exists i | 0 <= i < |bufs| :: bufs[i].For(ROOTDEV, b)
  }

  // Buffer i is the one of block b, or b has none and buffer i can be recycled.
  ghost predicate Serves(bufs: seq<Buf>, i: nat, b: nat) {
    i < |bufs| && if Cached(bufs, b) then bufs[i].For(ROOTDEV, b) else bufs[i].Recyclable()
  }

  ghost predicate CanRead(bufs: seq<Buf>, b: nat) {
    exists i: nat :: Serves(bufs, i, b)
  }

  // There is a buffer for a and another for b.
  ghost predicate CanReadBoth(bufs: seq<Buf>, a: nat, b: nat) {
    exists i: nat, j: nat :: i != j && Serves(bufs, i, a) && Serves(bufs, j, b)
  }

  // Buffer i was taken for block a.
  ghost predicate Taken(bufs: seq<Buf>, bufs': seq<Buf>, i: nat, a: nat) {
    && i < |bufs| == |bufs'| && Serves(bufs, i, a) && bufs' == bufs[i := bufs'[i]]
    && bufs'[i].For(ROOTDEV, a) && bufs'[i].refcnt > 0
  }

  lemma SecondBuffer(bufs: seq<Buf>, bufs': seq<Buf>, i: nat, a: nat, b: nat, j: nat)
    requires Taken(bufs, bufs', i, a) && a != b && Serves(bufs', j, b)
    ensures CanReadBoth(bufs, a, b)
  {
    assert forall x | 0 <= x < |bufs| && x != i :: bufs'[x] == bufs[x];
    if Cached(bufs', b) {
      assert bufs[j].For(ROOTDEV, b);
      assert Serves(bufs, i, a) && Serves(bufs, j, b);
    } else if Cached(bufs, b) {
      var k :| 0 <= k < |bufs| && bufs[k].For(ROOTDEV, b);
      assert Serves(bufs, j, a) && Serves(bufs, i, b);
    } else {
      assert Serves(bufs, i, a) && Serves(bufs, j, b);
    }
  }

  lemma TwoBuffers(bufs: seq<Buf>, bufs': seq<Buf>, i: nat, a: nat, b: nat, i0: nat, j0: nat)
    requires Taken(bufs, bufs', i, a) && a != b && i0 != j0 && Serves(bufs, i0, a) && Serves(bufs, j0, b)
    requires forall x, y | 0 <= x < |bufs| && 0 <= y < |bufs| && bufs[x].For(ROOTDEV, a) && bufs[y].For(ROOTDEV, a) ::
               x == y
    ensures CanRead(bufs', b)
  {
    var j := if i == j0 then i0 else j0;
    if Cached(bufs', b) {
      var k :| 0 <= k < |bufs'| && bufs'[k].For(ROOTDEV, b);
      assert Serves(bufs', k, b);
    } else {
      assert i != j0 ==> bufs'[j0] == bufs[j0];
      assert bufs'[j].Recyclable() && Serves(bufs', j, b);
    }
  }

  /** Whichever buffer bread takes for a, it then finds one for b if and only if there were two to begin with. */
  lemma ReadBothIff(bufs: seq<Buf>, disk: seq<Block>, content: seq<Block>, index: Index, bufs': seq<Buf>, i: nat,
                    a: nat, b: nat)
    requires Coherent(bufs, disk, content, index) && Taken(bufs, bufs', i, a) && a != b
    ensures CanRead(bufs', b) <==> CanReadBoth(bufs, a, b)
  {
    forall x, y | 0 <= x < |bufs| && 0 <= y < |bufs| && bufs[x].For(ROOTDEV, a) && bufs[y].For(ROOTDEV, a)
      ensures x == y
    {
      OneBufferPerBlock(bufs, disk, content, index, x, y);
    }
    if j: nat :| Serves(bufs', j, b) { SecondBuffer(bufs, bufs', i, a, b, j); }
    if i0: nat, j0: nat :| i0 != j0 && Serves(bufs, i0, a) && Serves(bufs, j0, b) {
      TwoBuffers(bufs, bufs', i, a, b, i0, j0);
    }
  }

  /* ---- counting pinned buffers ---- */

  ghost function Pinned(bufs: seq<Buf>): nat {
    if bufs == [] then 0 else Pinned(bufs[..|bufs| - 1]) + if bufs[|bufs| - 1].dirty then 1 else 0
  }

  lemma {:induction false} PinnedBound(bufs: seq<Buf>)
    ensures Pinned(bufs) <= |bufs| && (Pinned(bufs) == |bufs| <==> forall i | 0 <= i < |bufs| :: bufs[i].dirty)
  {
    if bufs != [] {
      var n := |bufs| - 1;
      PinnedBound(bufs[..n]);
      assert forall i | 0 <= i < n :: bufs[..n][i] == bufs[i];
    }
  }

  // Two buffers that are not pinned.
  lemma {:induction false} TwoClean(bufs: seq<Buf>) returns (i: nat, j: nat)
    requires Pinned(bufs) + 1 < |bufs|
    ensures i < |bufs| && j < |bufs| && i != j && !bufs[i].dirty && !bufs[j].dirty
  {
    var n := |bufs| - 1;
    PinnedBound(bufs[..n]);
    assert forall k | 0 <= k < n :: bufs[..n][k] == bufs[k];
    if bufs[n].dirty {
      i, j := TwoClean(bufs[..n]);
    } else {
      i :| 0 <= i < n && !bufs[..n][i].dirty;
      j := n;
    }
  }

  lemma {:induction false} TwoNotPinned(bufs: seq<Buf>, i: nat, j: nat)
    requires i < j < |bufs| && !bufs[i].dirty && !bufs[j].dirty
    ensures Pinned(bufs) + 2 <= |bufs|
  {
    var n := |bufs| - 1;
    PinnedBound(bufs[..n]);
    if j < n { TwoNotPinned(bufs[..n], i, j); } else { assert !bufs[..n][i].dirty; }
  }

  lemma {:induction false} PinnedBlocks(bufs: seq<Buf>)
    requires forall i | 0 <= i < |bufs| && bufs[i].dirty :: bufs[i].dev == ROOTDEV
    requires forall i, j | 0 <= i < j < |bufs| && bufs[i].dirty && bufs[j].dirty :: bufs[i].blockno != bufs[j].blockno
    ensures |DirtyBlocks(bufs)| == Pinned(bufs)
  {
    if bufs == [] {
      assert DirtyBlocks(bufs) == {};
    } else {
      var n := |bufs| - 1;
      var u := bufs[n];
      assert forall k | 0 <= k < n :: bufs[..n][k] == bufs[k];
      PinnedBlocks(bufs[..n]);
      forall b
        ensures b in DirtyBlocks(bufs) <==> b in DirtyBlocks(bufs[..n]) || (u.dirty && b == u.blockno)
      {
        if i :| 0 <= i < n && bufs[i].dirty && bufs[i].dev == ROOTDEV && bufs[i].blockno == b {
          assert bufs[..n][i].dirty;
        }
      }
      assert DirtyBlocks(bufs) == DirtyBlocks(bufs[..n]) + (if u.dirty then {u.blockno} else {});
      assert u.dirty ==> u.blockno !in DirtyBlocks(bufs[..n]);
    }
  }

  // As many buffers are pinned as there are pinned blocks.
  lemma PinnedIs(bufs: seq<Buf>, disk: seq<Block>, content: seq<Block>, index: Index)
    requires Coherent(bufs, disk, content, index)
    ensures |DirtyBlocks(bufs)| == Pinned(bufs) <= NBUF
  {
    Unpack(bufs, disk, content, index);
    assert forall i | 0 <= i < NBUF :: BufOk(bufs[i], i, index, content);
    assert forall i | 0 <= i < NBUF && bufs[i].dirty ::
             (ROOTDEV, bufs[i].blockno) in index && index[(ROOTDEV, bufs[i].blockno)] == i;
    PinnedBlocks(bufs);
    PinnedBound(bufs);
  }

  ghost function RefsOf(bufs: seq<Buf>): (r: seq<int>)
    ensures |r| == |bufs| && forall i | 0 <= i < |r| :: r[i] == bufs[i].refcnt
  {
    seq(|bufs|, i requires 0 <= i < |bufs| => bufs[i].refcnt)
  }

  // One reference more, or less, to buffer i.
  ghost function Held(refs: seq<int>, i: nat, n: int): seq<int>
    requires i < |refs|
  {
    refs[i := refs[i] + n]
  }

  lemma OneRef(bufs: seq<Buf>, bufs': seq<Buf>, i: nat, n: int)
    requires i < |bufs| == |bufs'| && bufs' == bufs[i := bufs'[i]] && bufs'[i].refcnt == bufs[i].refcnt + n
    ensures RefsOf(bufs') == Held(RefsOf(bufs), i, n)
  {
  }

  // Nobody holds a reference to a buffer.
  ghost predicate NoRefs(bufs: seq<Buf>) {
    forall i | 0 <= i < |bufs| :: bufs[i].refcnt == 0
  }

  ghost function NoRef(): seq<int> {
    seq(NBUF, _ => 0)
  }

  lemma NoRefsIff(bufs: seq<Buf>)
    requires |bufs| == NBUF
    ensures RefsOf(bufs) == NoRef() <==> NoRefs(bufs)
  {
    if NoRefs(bufs) { assert RefsOf(bufs) == NoRef(); }
  }

  /** With no references held, a block that is not pinned can be read if and only if not all buffers are pinned. */
  lemma ReadIff(bufs: seq<Buf>, disk: seq<Block>, content: seq<Block>, index: Index, b: nat)
    requires Coherent(bufs, disk, content, index) && NoRefs(bufs)
    ensures CanRead(bufs, b) <==> |DirtyBlocks(bufs)| < NBUF || b in DirtyBlocks(bufs)
  {
    PinnedIs(bufs, disk, content, index);
    PinnedBound(bufs);
    if Cached(bufs, b) {
      var i :| 0 <= i < |bufs| && bufs[i].For(ROOTDEV, b);
      assert Serves(bufs, i, b);
    } else if |DirtyBlocks(bufs)| < NBUF {
      var i :| 0 <= i < |bufs| && !bufs[i].dirty;
      assert Serves(bufs, i, b);
    }
  }

  // Enough for two: another clean buffer, or the second block is pinned.
  lemma ReadBoth(bufs: seq<Buf>, disk: seq<Block>, content: seq<Block>, index: Index, a: nat, b: nat)
    requires Coherent(bufs, disk, content, index) && NoRefs(bufs) && a != b && |DirtyBlocks(bufs)| < NBUF
    requires |DirtyBlocks(bufs)| + 1 < NBUF || b in DirtyBlocks(bufs)
    ensures CanReadBoth(bufs, a, b)
  {
    PinnedIs(bufs, disk, content, index);
    PinnedBound(bufs);
    ReadIff(bufs, disk, content, index, a);
    ReadIff(bufs, disk, content, index, b);
    var i: nat :| Serves(bufs, i, a);
    var j: nat :| Serves(bufs, j, b);
    if i == j {
      if k :| 0 <= k < |bufs| && bufs[k].dirty && bufs[k].For(ROOTDEV, b) {
        OneBufferPerBlock(bufs, disk, content, index, j, k);
        assert false;
      }
      var p, q := OtherClean(bufs, i, b);
      if Cached(bufs, b) { assert Serves(bufs, p, a); } else { assert Serves(bufs, p, b); }
    }
  }

  // What serves a block that is not pinned is not pinned.
  lemma ServesClean(bufs: seq<Buf>, i: nat, b: nat)
    requires Serves(bufs, i, b) && b !in DirtyBlocks(bufs)
    ensures !bufs[i].dirty
  {
  }

  /** With no references held, a block that is not pinned and block b can both be read if and only if there are two
      buffers that are not pinned, or one and b is pinned. */
  lemma TwoReadIff(bufs: seq<Buf>, disk: seq<Block>, content: seq<Block>, index: Index, a: nat, b: nat)
    requires Coherent(bufs, disk, content, index) && NoRefs(bufs) && a != b && a !in DirtyBlocks(bufs)
    ensures CanReadBoth(bufs, a, b) <==>
            |DirtyBlocks(bufs)| + 1 < NBUF || (|DirtyBlocks(bufs)| < NBUF && b in DirtyBlocks(bufs))
  {
    PinnedIs(bufs, disk, content, index);
    if i: nat, j: nat :| i != j && Serves(bufs, i, a) && Serves(bufs, j, b) {
      ServesClean(bufs, i, a);
      PinnedBound(bufs);
      if b !in DirtyBlocks(bufs) {
        ServesClean(bufs, j, b);
        if i < j { TwoNotPinned(bufs, i, j); } else { TwoNotPinned(bufs, j, i); }
      }
    }
    if |DirtyBlocks(bufs)| + 1 < NBUF || (|DirtyBlocks(bufs)| < NBUF && b in DirtyBlocks(bufs)) {
      ReadBoth(bufs, disk, content, index, a, b);
    }
  }

  lemma OtherClean(bufs: seq<Buf>, i: nat, b: nat) returns (p: nat, q: nat)
    requires Pinned(bufs) + 1 < |bufs| && i < |bufs|
    ensures p < |bufs| && p != i && !bufs[p].dirty
  {
    p, q := TwoClean(bufs);
    if p == i { p := q; }
  }

  function Unused(): (bufs: seq<Buf>)
    ensures |bufs| == NBUF
    ensures forall i | 0 <= i < NBUF :: bufs[i].For(0, 0) && bufs[i].Recyclable() && !bufs[i].valid && !bufs[i].locked
  {
    seq(NBUF, _ => Buf(0, 0, false, false, 0, false, seq(BWORDS, _ => 0)))
  }

  class BufferCache {
    var bufs: seq<Buf>
    var next: seq<nat>
    var prev: seq<nat>
    var disk: seq<Block>

    ghost var order: seq<nat>          // the list from head.next
    ghost var stamp: seq<int>          // when each buffer was last released to refcnt 0
    ghost var clock: int
    ghost var content: seq<Block>      // what each block holds, as seen through the cache
    ghost var index: Index
    ghost var trail: seq<seq<Block>>   // every state the disk has been in, oldest first

    ghost predicate Listed()
      reads this
    {
      |bufs| == NBUF && Lru(order, next, prev, stamp, clock)
    }

    ghost predicate Valid()
      reads this
    {
      && Listed()
      && Coherent(bufs, disk, content, index)
      && trail != [] && trail[|trail| - 1] == disk
    }

    // A locked buffer holding block b, as bread returns it.
    ghost predicate Handle(i: nat, b: nat)
      reads this
    {
      i < |bufs| && bufs[i].For(ROOTDEV, b) && bufs[i].locked && bufs[i].valid
    }

    // Blocks whose buffer some process has locked, and blocks whose buffer is pinned.
    ghost function Locked(): set<nat>
      reads this
    {
      LockedBlocks(bufs)
    }

    ghost function Dirty(): set<nat>
      reads this
    {
      DirtyBlocks(bufs)
    }

    // How many references each buffer has.
    ghost function Refs(): seq<int>
      reads this
    {
      RefsOf(bufs)
    }

    lemma Flags(was: seq<Buf>, i: nat, b: nat)
      requires Coherent(bufs, disk, content, index)
      requires i < NBUF && bufs[i].For(ROOTDEV, b)
      requires |was| == NBUF && bufs == was[i := bufs[i]]
      requires was[i].For(ROOTDEV, b) || (!was[i].locked && !was[i].dirty)
      ensures Locked() == Flag(LockedBlocks(was), b, bufs[i].locked)
      ensures Dirty() == Flag(DirtyBlocks(was), b, bufs[i].dirty)
      ensures forall j | 0 <= j < NBUF && j != i :: !was[j].For(ROOTDEV, b)
    {
      forall j | 0 <= j < NBUF && j != i
        ensures !was[j].For(ROOTDEV, b)
      {
        if bufs[j].For(ROOTDEV, b) {
          OneBufferPerBlock(bufs, disk, content, index, i, j);
        }
      }
      FlagsOf(was, i, bufs[i]);
    }

    // A block nobody has locked or pinned has its content on the disk.
    lemma Settled(b: nat)
      requires Valid() && b < |disk| && b !in Locked() && b !in Dirty()
      ensures content[b] == disk[b]
    {
      Unpack(bufs, disk, content, index);
      if (ROOTDEV, b) in index {
        assert bufs[index[(ROOTDEV, b)]].For(ROOTDEV, b);
      }
    }

    lemma ReadFlags(was: seq<Buf>, i: nat, b: nat)
      requires Coherent(bufs, disk, content, index)
      requires Handle(i, b) && |was| == NBUF && bufs == was[i := bufs[i]]
      requires bufs[i].dirty == was[i].dirty && (was[i].For(ROOTDEV, b) || (!was[i].dirty && !was[i].locked))
      ensures Locked() == LockedBlocks(was) + {b} && Dirty() == DirtyBlocks(was)
    {
      Flags(was, i, b);
      assert bufs[i].dirty ==> b in DirtyBlocks(was);
      assert !bufs[i].dirty ==> b !in DirtyBlocks(was);
    }

    constructor (image: seq<Block>)
      ensures Valid()
      ensures disk == content == image && trail == [image] && bufs == Unused()
    {
      bufs := Unused();
      disk, content, index, trail := image, image, map[], [image];
      next, prev, order, stamp, clock := [], [], [], [], 0;
      new;
      BInit();
      assert forall i | 0 <= i < NBUF :: BufOk(bufs[i], i, index, content);
      Pack(bufs, disk, content, index);
    }

    // binit: the last buffer initialised is at the front of the list.
    method BInit()
      requires |bufs| == NBUF
      modifies this`next, this`prev, this`order, this`stamp, this`clock
      ensures Listed()
    {
      next := seq(NBUF + 1, _ => HEAD);
      prev := seq(NBUF + 1, _ => HEAD);
      order, stamp, clock := [], seq(NBUF, i => i), NBUF;
      var b := 0;
      while b < NBUF
        invariant 0 <= b <= NBUF
        invariant Linked(order, next, prev)
        invariant |order| == b && forall k | 0 <= k < b :: order[k] == b - 1 - k
        invariant |stamp| == NBUF == clock && forall i | 0 <= i < NBUF :: stamp[i] == i
      {
        PushFront(order, next, prev, b);
        var first := next[HEAD];
        next := next[b := first];
        prev := prev[b := HEAD];
        prev := prev[first := b];
        next := next[HEAD := b];
        order := [b] + order;
        b := b + 1;
      }
      forall i | 0 <= i < NBUF
        ensures i in order
      {
        assert order[NBUF - 1 - i] == i;
      }
      CloseLru(order, next, prev, stamp, clock);
    }

    // bget, first loop: is the block cached?
    method Find(dev: nat, blockno: nat) returns (r: Option<nat>)
      requires Listed()
      ensures r.Some? ==> r.value < NBUF && bufs[r.value].For(dev, blockno)
      ensures r.None? ==> forall i | 0 <= i < NBUF :: !bufs[i].For(dev, blockno)
    {
      OpenLru(order, next, prev, stamp, clock);
      ghost var k := 0;
      assert At(order, 0) == HEAD;
      var b := next[HEAD];
      while b != HEAD
        invariant 0 <= k <= |order| && b == At(order, k + 1)
        invariant forall m | 0 <= m < k :: !bufs[order[m]].For(dev, blockno)
        decreases |order| - k
      {
        if bufs[b].For(dev, blockno) {
          return Some(b);
        }
        b := next[b];
        k := k + 1;
      }
      assert k == |order|;
      forall i | 0 <= i < NBUF
        ensures !bufs[i].For(dev, blockno)
      {
        assert i in order;
      }
      return None;
    }

    // bget, second loop: the least recently released buffer that is clean and unreferenced.
    method Victim() returns (r: Option<nat>)
      requires Listed()
      ensures r.Some? ==> r.value < NBUF && bufs[r.value].Recyclable()
      ensures r.Some? ==> forall j | 0 <= j < NBUF && j != r.value && bufs[j].Recyclable() :: stamp[r.value] < stamp[j]
      ensures r.None? ==> forall j | 0 <= j < NBUF :: !bufs[j].Recyclable()
    {
      OpenLru(order, next, prev, stamp, clock);
      ghost var k := |order| + 1;
      assert At(order, k) == HEAD;
      var b := prev[HEAD];
      while b != HEAD
        invariant 1 <= k <= |order| + 1 && b == At(order, k - 1)
        invariant forall m | k - 1 <= m < |order| :: !bufs[order[m]].Recyclable()
        decreases k
      {
        if bufs[b].Recyclable() {
          forall j | 0 <= j < NBUF && j != b && bufs[j].Recyclable()
            ensures stamp[b] < stamp[j]
          {
            assert j in order;
          }
          return Some(b);
        }
        b := prev[b];
        k := k - 1;
      }
      assert k == 1;
      forall i | 0 <= i < NBUF
        ensures !bufs[i].Recyclable()
      {
        assert i in order;
      }
      return None;
    }

    /** bget up to its acquiresleep: the block's buffer if it has one, else the least recently
        released clean unreferenced buffer, else the panic "bget: no buffers". */
    method BGet(dev: nat, blockno: nat) returns (r: Option<nat>)
      requires Valid()
      modifies this`bufs, this`index
      ensures Valid()
      ensures r.None? <==> old(forall i | 0 <= i < NBUF :: !bufs[i].For(dev, blockno) && !bufs[i].Recyclable())
      ensures r.None? ==> unchanged(this)
      ensures r.Some? ==> r.value < NBUF && bufs[r.value].For(dev, blockno) && bufs[r.value].refcnt > 0
                          && bufs == old(bufs)[r.value := bufs[r.value]]
      ensures r.Some? && old(bufs[r.value].For(dev, blockno)) ==>
        bufs[r.value] == old(bufs[r.value]).(refcnt := old(bufs[r.value].refcnt) + 1)
      ensures r.Some? && !old(bufs[r.value].For(dev, blockno)) ==>
        && old(forall i | 0 <= i < NBUF :: !bufs[i].For(dev, blockno))
        && old(bufs[r.value].Recyclable()) && !old(bufs[r.value].locked)
        && bufs[r.value].refcnt == 1 && !bufs[r.value].valid && !bufs[r.value].dirty && !bufs[r.value].locked
        && (forall j | 0 <= j < NBUF && j != r.value && old(bufs[j].Recyclable()) :: stamp[r.value] < stamp[j])
    {
      r := Find(dev, blockno);
      if r.Some? {
        var u := bufs[r.value].(refcnt := bufs[r.value].refcnt + 1);
        Quiet(bufs, disk, content, index, r.value, u);
        bufs := bufs[r.value := u];
        return;
      }
      r := Victim();
      if r.Some? {
        RecycleIsTransparent(bufs, disk, content, index, r.value, dev, blockno);
        index := Reindex(index, bufs[r.value], dev, blockno, r.value);
        bufs := bufs[r.value := Buf(dev, blockno, false, false, 1, false, bufs[r.value].data)];
      }
    }

    // acquiresleep(&b->lock) by a process that got b from bget; it waits while b is locked.
    method AcquireSleep(i: nat)
      requires Valid()
      requires i < NBUF && bufs[i].refcnt > 0 && !bufs[i].locked
      modifies this`bufs
      ensures Valid()
      ensures bufs == old(bufs)[i := old(bufs[i]).(locked := true)]
    {
      var u := bufs[i].(locked := true);
      Quiet(bufs, disk, content, index, i, u);
      bufs := bufs[i := u];
    }

    /** iderw of memide.c: one atomic block transfer, or a panic. */
    method Iderw(i: nat) returns (ok: bool)
      requires Valid()
      requires i < NBUF
      modifies this`bufs, this`disk, this`trail
      ensures Valid()
      ensures ok <==> old(bufs[i].locked && (!bufs[i].valid || bufs[i].dirty)
                          && bufs[i].dev == ROOTDEV && bufs[i].blockno < |disk|)
      ensures !ok ==> unchanged(this)
      ensures ok ==>
        bufs == old(bufs)[i := old(bufs[i]).(valid := true, dirty := false, data := content[old(bufs[i].blockno)])]
      ensures ok && old(bufs[i].dirty) ==>
        disk == old(disk)[bufs[i].blockno := content[bufs[i].blockno]] && trail == old(trail) + [disk]
      ensures ok && !old(bufs[i].dirty) ==> disk == old(disk) && trail == old(trail)
    {
      var u := bufs[i];
      if !u.locked || (u.valid && !u.dirty) || u.dev != ROOTDEV || u.blockno >= |disk| {
        return false;
      }
      Unpack(bufs, disk, content, index);
      assert BufOk(bufs[i], i, index, content);
      if u.dirty {
        u := u.(dirty := false, valid := true);
        Touch(bufs, disk, content, index, i, u, u.data);
        assert content[u.blockno := u.data] == content;
        disk := disk[u.blockno := u.data];
        trail := trail + [disk];
      } else {
        u := u.(data := disk[u.blockno], valid := true);
        assert content[u.blockno] == disk[u.blockno] || Ahead(bufs, index, u.blockno);
        Touch(bufs, disk, content, index, i, u, u.data);
        assert content[u.blockno := u.data] == content && disk[u.blockno := u.data] == disk;
      }
      bufs := bufs[i := u];
      return true;
    }

    /** bread: the buffer handed back holds the last content stored in the block, whatever was evicted to make
        room.  While another process has the block locked the caller waits, with a reference to the buffer; None is
        a panic. */
    method BRead(b: nat) returns (r: Option<nat>, waits: bool)
      requires Valid()
      modifies this`bufs, this`index, this`disk, this`trail
      ensures Valid()
      ensures disk == old(disk) && trail == old(trail)
      ensures waits <==> old(b in Locked())
      ensures r.None? <==> !CanRead(old(bufs), b) || (!waits && b >= |disk|)
      ensures r.Some? ==> Taken(old(bufs), bufs, r.value, b) && Refs() == Held(old(Refs()), r.value, 1)
      ensures waits ==> r.Some? && bufs[r.value] == old(bufs[r.value]).(refcnt := old(bufs[r.value].refcnt) + 1)
      ensures r.Some? && !waits ==> Handle(r.value, b) && b < |disk| && bufs[r.value].data == content[b]
      ensures r.Some? && !waits ==> Locked() == old(Locked()) + {b} && Dirty() == old(Dirty())
    {
      ghost var was := bufs;
      r := BGet(ROOTDEV, b);
      assert r.Some? ==> Serves(was, r.value, b);
      waits := r.Some? && bufs[r.value].locked;
      LockedIff(was, b, r, waits);
      if r.Some? { OneRef(was, bufs, r.value, 1); }
      if r.None? || waits { return; }
      var i := r.value;
      AcquireSleep(i);
      if !bufs[i].valid {
        BufFact(bufs, disk, content, index, i);
        var ok := Iderw(i);
        if !ok { return None, false; }
      }
      BufFact(bufs, disk, content, index, i);
      ReadFlags(was, i, b);
      OneRef(was, bufs, i, 1);
    }

    // What bget found tells whether the block is locked.
    lemma LockedIff(was: seq<Buf>, b: nat, r: Option<nat>, waits: bool)
      requires Coherent(bufs, disk, content, index) && |was| == NBUF
      requires waits <==> r.Some? && r.value < NBUF && bufs[r.value].locked
      requires r.None? ==> bufs == was && forall i | 0 <= i < NBUF :: !bufs[i].For(ROOTDEV, b)
      requires r.Some? ==> r.value < NBUF && bufs[r.value].For(ROOTDEV, b) && bufs == was[r.value := bufs[r.value]]
      requires r.Some? && was[r.value].For(ROOTDEV, b) ==> bufs[r.value].locked == was[r.value].locked
      requires r.Some? && !was[r.value].For(ROOTDEV, b) ==> !bufs[r.value].locked
      ensures waits <==> b in LockedBlocks(was)
    {
      if i :| 0 <= i < NBUF && was[i].locked && was[i].dev == ROOTDEV && was[i].blockno == b {
        if r.Some? && i != r.value { OneBufferPerBlock(bufs, disk, content, index, i, r.value); }
      }
    }

    // The process holding the lock stores new data in the buffer.
    method Store(i: nat, b: nat, d: Block)
      requires Valid() && Handle(i, b)
      modifies this`bufs, this`content
      ensures Valid() && Handle(i, b)
      ensures b < |disk| && content == old(content)[b := d]
      ensures bufs == old(bufs)[i := old(bufs[i]).(data := d)]
      ensures Locked() == old(Locked()) && Dirty() == old(Dirty())
      ensures Refs() == old(Refs())
    {
      ghost var was := bufs;
      BufFact(bufs, disk, content, index, i);
      var u := bufs[i].(data := d);
      Touch(bufs, disk, content, index, i, u, disk[b]);
      assert disk[b := disk[b]] == disk;
      content := content[b := d];
      bufs := bufs[i := u];
      SameFlags(was, bufs);
    }

    // log_write's effect on the buffer: it must not be recycled before the commit.
    method Pin(i: nat, b: nat)
      requires Valid() && Handle(i, b)
      modifies this`bufs
      ensures Valid() && Handle(i, b)
      ensures bufs == old(bufs)[i := old(bufs[i]).(dirty := true)]
      ensures Locked() == old(Locked()) && Dirty() == old(Dirty()) + {b}
      ensures Refs() == old(Refs())
    {
      ghost var was := bufs;
      BufFact(bufs, disk, content, index, i);
      var u := bufs[i].(dirty := true);
      Touch(bufs, disk, content, index, i, u, disk[b]);
      assert disk[b := disk[b]] == disk && content[b := u.data] == content;
      bufs := bufs[i := u];
      Flags(was, i, b);
      assert b in LockedBlocks(was);
    }

    // The flags of a buffer change, not its block.
    lemma Reflag(was: seq<Buf>, i: nat, b: nat, u: Buf)
      requires Coherent(was, disk, content, index) && i < NBUF && was[i].For(ROOTDEV, b) && u.For(ROOTDEV, b)
      ensures LockedBlocks(was[i := u]) == Flag(LockedBlocks(was), b, u.locked)
      ensures DirtyBlocks(was[i := u]) == Flag(DirtyBlocks(was), b, u.dirty)
      ensures was[i].locked <==> b in LockedBlocks(was)
      ensures was[i].dirty <==> b in DirtyBlocks(was)
    {
      forall j | 0 <= j < NBUF && j != i
        ensures !was[j].For(ROOTDEV, b)
      {
        if was[j].For(ROOTDEV, b) { OneBufferPerBlock(was, disk, content, index, i, j); }
      }
      FlagsOf(was, i, u);
    }

    /** bwrite: what the buffer holds reaches the disk in one write; false is a panic, for a buffer that is not
        locked or a block that is not on the disk. */
    method BWrite(i: nat) returns (ok: bool)
      requires Valid() && i < NBUF
      modifies this`bufs, this`disk, this`trail, this`content
      ensures ok <==> old(bufs[i].locked && bufs[i].dev == ROOTDEV && bufs[i].blockno < |disk|)
      ensures Valid() && (!ok ==> unchanged(this))
      ensures ok ==> bufs == old(bufs)[i := old(bufs[i]).(valid := true, dirty := false)]
      ensures ok ==> disk == old(disk)[bufs[i].blockno := bufs[i].data] && trail == old(trail) + [disk]
      ensures ok ==> content == old(content)[bufs[i].blockno := bufs[i].data]
      ensures ok && old(bufs[i].valid) ==> content == old(content)
      ensures ok ==> Locked() == old(Locked()) && Dirty() == old(Dirty()) - {bufs[i].blockno}
      ensures ok ==> Refs() == old(Refs())
    {
      if !bufs[i].locked || bufs[i].dev != ROOTDEV || bufs[i].blockno >= |disk| { return false; }
      ghost var was := bufs;
      var u := bufs[i].(valid := true, dirty := true);
      BufFact(bufs, disk, content, index, i);
      Touch(bufs, disk, content, index, i, u, disk[u.blockno]);
      Reflag(bufs, i, u.blockno, u.(dirty := false));
      assert disk[u.blockno := disk[u.blockno]] == disk && (bufs[i].valid ==> content[u.blockno := u.data] == content);
      content := content[u.blockno := u.data];
      bufs := bufs[i := u];
      ok := Iderw(i);
      assert bufs == was[i := u.(dirty := false)];
    }

    // brelse as far as its releasesleep (bio.c:122-125).
    method ReleaseSleep(i: nat) returns (ok: bool)
      requires Valid() && i < NBUF
      modifies this`bufs
      ensures ok <==> old(bufs[i].locked)
      ensures !ok ==> unchanged(this)
      ensures ok ==> bufs == old(bufs)[i := old(bufs[i]).(locked := false)] && bufs[i].refcnt > 0
      ensures ok ==> (Valid() <==> Flushed(old(bufs[i]), disk, content))
    {
      if !bufs[i].locked { return false; }
      BufFact(bufs, disk, content, index, i);
      Unlock(bufs, disk, content, index, i);
      bufs := bufs[i := bufs[i].(locked := false)];
      return true;
    }

    // The rest of brelse, under bcache.lock; another process may have locked the buffer by then.
    method Unref(i: nat)
      requires Listed() && i < NBUF && bufs[i].refcnt > if bufs[i].locked then 1 else 0
      modifies this`bufs, this`next, this`prev, this`order, this`stamp, this`clock
      ensures Listed() && (Valid() <==> old(Valid()))
      ensures bufs == old(bufs)[i := old(bufs[i]).(refcnt := old(bufs[i].refcnt) - 1)]
      ensures bufs[i].refcnt == 0 ==>
        exists k | 0 <= k < |old(order)| :: old(order)[k] == i && order == [i] + Without(old(order), k)
      ensures bufs[i].refcnt > 0 ==> order == old(order) && stamp == old(stamp)
    {
      ghost var was := bufs;
      bufs := bufs[i := bufs[i].(refcnt := bufs[i].refcnt - 1)];
      if Coherent(was, disk, content, index) { Quiet(was, disk, content, index, i, bufs[i]); }
      if Coherent(bufs, disk, content, index) {
        Quiet(bufs, disk, content, index, i, was[i]);
        assert bufs[i := was[i]] == was;
      }
      if bufs[i].refcnt == 0 {
        MoveToFront(i);
      }
    }

    /** brelse: on the last release the buffer moves to the front of the list; false is the panic "brelse".  The
        cache stays coherent if and only if the buffer, if it was changed, has been logged or written. */
    method BRelse(i: nat) returns (ok: bool)
      requires Valid() && i < NBUF
      modifies this`bufs, this`next, this`prev, this`order, this`stamp, this`clock
      ensures ok <==> old(bufs[i].locked)
      ensures !ok ==> unchanged(this)
      ensures ok ==> (Valid() <==> Flushed(old(bufs[i]), disk, content))
      ensures ok ==> old(bufs[i].refcnt) > 0
      ensures ok ==> bufs == old(bufs)[i := old(bufs[i]).(locked := false, refcnt := old(bufs[i].refcnt) - 1)]
      ensures ok && bufs[i].refcnt == 0 ==>
        exists k | 0 <= k < |old(order)| :: old(order)[k] == i && order == [i] + Without(old(order), k)
      ensures ok && bufs[i].refcnt > 0 ==> order == old(order) && stamp == old(stamp)
      ensures ok && bufs[i].dev == ROOTDEV ==> Locked() == old(Locked()) - {bufs[i].blockno} && Dirty() == old(Dirty())
      ensures ok ==> Refs() == Held(old(Refs()), i, -1)
    {
      ghost var was := bufs;
      ok := ReleaseSleep(i);
      if !ok { return; }
      Unref(i);
      assert bufs == was[i := bufs[i]];
      if was[i].dev == ROOTDEV { Reflag(was, i, was[i].blockno, bufs[i]); }
    }

    // The pointer surgery of brelse.
    method MoveToFront(i: nat)
      requires Listed() && i < NBUF
      modifies this`next, this`prev, this`order, this`stamp, this`clock
      ensures Listed()
      ensures exists k | 0 <= k < |old(order)| :: old(order)[k] == i && order == [i] + Without(old(order), k)
      ensures stamp == old(stamp)[i := old(clock)]
    {
      OpenLru(order, next, prev, stamp, clock);
      assert i in order;
      ghost var k :| 0 <= k < |order| && order[k] == i;
      Surgery(order, next, prev, k);
      FrontKeepsOrder(order, stamp, k, clock);
      ghost var next0, prev0 := next, prev;
      var n, p := next[i], prev[i];
      prev := prev[n := p];
      next := next[p := n];
      var first := next[HEAD];
      next := next[i := first];
      prev := prev[i := HEAD];
      prev := prev[first := i];
      next := next[HEAD := i];
      assert next == NextAfter(next0, prev0, i) && prev == PrevAfter(next0, prev0, i);
      order := [i] + Without(order, k);
      stamp := stamp[i := clock];
      clock := clock + 1;
      CloseLru(order, next, prev, stamp, clock);
    }
  }
}
