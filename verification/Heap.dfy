/** The user-level allocator (umalloc.c): a circular, address-ordered, coalescing free list.

    Addresses count units of sizeof(Header) bytes.  Every unit holds a Header-sized pair of
    words, whether it is used as a header or belongs to a caller's data. */
module FreeList {

  datatype Header = Header(ptr: nat, size: nat)

  type Memory = map<nat, Header>

  /* ---- blocks tile the memory obtained from sbrk ---- */

  ghost predicate Tile(mem: Memory, base: nat, owner: map<nat, nat>, a: nat) {
    && a in mem && a > base && mem[a].size > 0
    && forall u | a <= u < a + mem[a].size :: u in owner && owner[u] == a
  }

  ghost predicate Owned(mem: Memory, blocks: set<nat>, owner: map<nat, nat>, u: nat)
    requires u in owner
  {
    u in mem && owner[u] in blocks && owner[u] in mem && owner[u] <= u < owner[u] + mem[owner[u]].size
  }

  /** `owner` sends every unit obtained from sbrk to the header of the block it is in, so the
      blocks partition those units. */
  ghost predicate Tiling(mem: Memory, base: nat, blocks: set<nat>, owner: map<nat, nat>) {
    && base in mem && mem[base].size == 0 && base !in owner
    && (forall a | a in blocks :: Tile(mem, base, owner, a))
    && (forall u | u in owner :: Owned(mem, blocks, owner, u))
  }

  lemma SameSizes(mem: Memory, mem': Memory, base: nat, blocks: set<nat>, owner: map<nat, nat>)
    requires Tiling(mem, base, blocks, owner)
    requires forall a | a in mem :: a in mem' && mem'[a].size == mem[a].size
    ensures Tiling(mem', base, blocks, owner)
  {
    assert forall a | a in blocks :: Tile(mem, base, owner, a);
    assert forall u | u in owner :: Owned(mem, blocks, owner, u);
  }

  ghost function Relabel(owner: map<nat, nat>, lo: nat, hi: nat, a: nat): map<nat, nat> {
    map u | u in owner :: if lo <= u < hi then a else owner[u]
  }

  // Two adjacent blocks become one.
  lemma MergeOther(mem: Memory, mem': Memory, base: nat, owner: map<nat, nat>, owner': map<nat, nat>, a: nat, b: nat,
                   c: nat)
    requires Tile(mem, base, owner, b) && Tile(mem, base, owner, c) && c != b && c in mem'
    requires mem'[c].size == mem[c].size
    requires owner' == Relabel(owner, b, b + mem[b].size, a)
    ensures Tile(mem', base, owner', c)
  {
    forall u | c <= u < c + mem[c].size
      ensures u in owner' && owner'[u] == c
    {
      assert owner[u] == c;
    }
  }

  lemma MergeOwned(mem: Memory, mem': Memory, blocks: set<nat>, owner: map<nat, nat>, a: nat, b: nat, u: nat)
    requires u in owner && Owned(mem, blocks, owner, u) && a in mem && b in mem && a in blocks && a + mem[a].size == b
    requires mem'.Keys == mem.Keys && mem'[a].size == mem[a].size + mem[b].size
    requires forall c | c in mem && c != a :: mem'[c].size == mem[c].size
    requires a != b && (owner[u] == b <==> b <= u < b + mem[b].size)
    ensures Owned(mem', blocks - {b}, Relabel(owner, b, b + mem[b].size, a), u)
  {
  }

  lemma MergeTiles(mem: Memory, mem': Memory, base: nat, blocks: set<nat>, owner: map<nat, nat>, a: nat, b: nat)
    requires Tiling(mem, base, blocks, owner) && a in blocks && b in blocks
    requires Tile(mem, base, owner, a) && Tile(mem, base, owner, b) && a + mem[a].size == b
    requires mem'.Keys == mem.Keys && mem'[a].size == mem[a].size + mem[b].size
    requires forall c | c in mem && c != a :: mem'[c].size == mem[c].size
    ensures Tiling(mem', base, blocks - {b}, Relabel(owner, b, b + mem[b].size, a))
  {
    var blocks', owner' := blocks - {b}, Relabel(owner, b, b + mem[b].size, a);
    assert owner[b] == b;
    forall c | c in blocks'
      ensures Tile(mem', base, owner', c)
    {
      assert Tile(mem, base, owner, c);
      if c != a { MergeOther(mem, mem', base, owner, owner', a, b, c); }
    }
    forall u | u in owner'
      ensures Owned(mem', blocks', owner', u)
    {
      assert Owned(mem, blocks, owner, u);
      MergeOwned(mem, mem', blocks, owner, a, b, u);
    }
  }

  // The last n units of a block, from c on, become a block of their own.
  lemma SplitTile(mem: Memory, mem': Memory, base: nat, blocks: set<nat>, owner: map<nat, nat>, a: nat, n: nat, c: nat)
    requires Tiling(mem, base, blocks, owner) && a in blocks && a in mem && 0 < n < mem[a].size
    requires c == a + mem[a].size - n
    requires mem'.Keys == mem.Keys && mem'[a].size == mem[a].size - n
    requires c in mem && mem'[c].size == n && forall d | d in mem && d != a && d != c :: mem'[d].size == mem[d].size
    ensures c !in blocks && Tiling(mem', base, blocks + {c}, Relabel(owner, c, c + n, c))
  {
    var blocks', owner' := blocks + {c}, Relabel(owner, c, c + n, c);
    assert Tile(mem, base, owner, a);
    assert owner[c] == a;
    assert c !in blocks by {
      assert forall d | d in blocks :: Tile(mem, base, owner, d);
    }
    forall d | d in blocks'
      ensures Tile(mem', base, owner', d)
    {
      if d != c {
        assert Tile(mem, base, owner, d);
        SplitOthers(owner, a, mem[a].size, n, d, mem[d].size);
      }
    }
    forall u | u in owner'
      ensures Owned(mem', blocks', owner', u)
    {
      assert Owned(mem, blocks, owner, u);
      SplitOwned(mem, mem', blocks, owner, a, n, c, u);
    }
  }

  lemma SplitOwned(mem: Memory, mem': Memory, blocks: set<nat>, owner: map<nat, nat>, a: nat, n: nat, c: nat, u: nat)
    requires a in mem && 0 < n < mem[a].size && c == a + mem[a].size - n && c !in blocks && u in owner
    requires Owned(mem, blocks, owner, u)
    requires forall w | a <= w < a + mem[a].size :: w in owner && owner[w] == a
    requires mem'.Keys == mem.Keys && mem'[a].size == mem[a].size - n
    requires c in mem && mem'[c].size == n && forall d | d in mem && d != a && d != c :: mem'[d].size == mem[d].size
    ensures Owned(mem', blocks + {c}, Relabel(owner, c, c + n, c), u)
  {
  }

  lemma SplitOthers(owner: map<nat, nat>, a: nat, size: nat, n: nat, d: nat, dsize: nat)
    requires 0 < n < size && (d == a ==> dsize == size)
    requires forall u | a <= u < a + size :: u in owner && owner[u] == a
    requires forall u | d <= u < d + dsize :: u in owner && owner[u] == d
    ensures var c, owner' := a + size - n, Relabel(owner, a + size - n, a + size, a + size - n);
            forall u | d <= u < d + dsize && (d != a || u < c) :: u in owner' && owner'[u] == d
  {
  }

  ghost function Region(r: nat, n: nat): (m: map<nat, nat>)
    ensures forall u :: u in m <==> r <= u < r + n
    ensures forall u | u in m :: m[u] == r
  {
    if n == 0 then map[] else Region(r, n - 1)[r + n - 1 := r]
  }

  // A region from sbrk becomes one block.
  lemma AddTile(mem: Memory, mem': Memory, base: nat, blocks: set<nat>, owner: map<nat, nat>, r: nat, n: nat)
    requires Tiling(mem, base, blocks, owner) && r > base && n > 0
    requires forall u | r <= u < r + n :: u !in owner && u in mem'
    requires r in mem' && mem'[r].size == n
    requires forall a | a in mem && !(r <= a < r + n) :: a in mem' && mem'[a].size == mem[a].size
    ensures r !in blocks && Tiling(mem', base, blocks + {r}, owner + Region(r, n))
  {
    var owner' := owner + Region(r, n);
    assert r in blocks ==> Tile(mem, base, owner, r) && r in owner;
    forall a | a in blocks + {r}
      ensures Tile(mem', base, owner', a)
    {
      if a != r { assert Tile(mem, base, owner, a) && a in owner; }
    }
    forall u | u in owner'
      ensures Owned(mem', blocks + {r}, owner', u)
    {
      if u in owner {
        assert Owned(mem, blocks, owner, u);
        assert Tile(mem, base, owner, owner[u]) && owner[u] in owner;
      }
    }
  }

  ghost function TotalSize(mem: Memory, blocks: set<nat>): nat {
    if blocks == {} then 0 else
      var a :| a in blocks;
      (if a in mem then mem[a].size else 0) + TotalSize(mem, blocks - {a})
  }

  lemma {:induction false} RegionSize(r: nat, n: nat)
    ensures |Region(r, n)| == n
  {
    if n > 0 { RegionSize(r, n - 1); }
  }

  // What is left when one block and its units are taken away is still a tiling.
  lemma RestTiles(mem: Memory, base: nat, blocks: set<nat>, owner: map<nat, nat>, a: nat, own: set<nat>)
    requires Tiling(mem, base, blocks, owner) && a in blocks && a in mem
    requires forall u :: u in own <==> a <= u < a + mem[a].size
    ensures own <= owner.Keys && Tiling(mem, base, blocks - {a}, owner - own)
  {
    var blocks', owner' := blocks - {a}, owner - own;
    assert Tile(mem, base, owner, a);
    forall b | b in blocks'
      ensures Tile(mem, base, owner', b)
    {
      assert Tile(mem, base, owner, b);
      forall u | b <= u < b + mem[b].size
        ensures u in owner' && owner'[u] == b
      {
        assert owner[u] == b;
      }
    }
    forall u | u in owner'
      ensures Owned(mem, blocks', owner', u)
    {
      assert Owned(mem, blocks, owner, u);
    }
  }

  lemma SizeOfRest(owner: map<nat, nat>, own: set<nat>)
    requires own <= owner.Keys
    ensures |owner| == |owner - own| + |own|
  {
    assert owner.Keys == (owner - own).Keys + own;
    assert |owner| == |owner.Keys| && |owner - own| == |(owner - own).Keys|;
  }

  lemma TakeTile(mem: Memory, base: nat, blocks: set<nat>, owner: map<nat, nat>, a: nat) returns (own: set<nat>)
    requires Tiling(mem, base, blocks, owner) && a in blocks && a in mem
    ensures Tiling(mem, base, blocks - {a}, owner - own) && |owner| == |owner - own| + mem[a].size
  {
    own := Region(a, mem[a].size).Keys;
    RegionSize(a, mem[a].size);
    assert |Region(a, mem[a].size)| == |own|;
    RestTiles(mem, base, blocks, owner, a, own);
    SizeOfRest(owner, own);
  }

  /** Conservation: the blocks' sizes add up to the number of units obtained from sbrk. */
  lemma {:induction false} Conservation(mem: Memory, base: nat, blocks: set<nat>, owner: map<nat, nat>)
    requires Tiling(mem, base, blocks, owner)
    ensures TotalSize(mem, blocks) == |owner|
    decreases |blocks|
  {
    assert forall u | u in owner :: Owned(mem, blocks, owner, u);
    if blocks == {} {
      assert owner == map[];
    } else {
      var a :| a in blocks && TotalSize(mem, blocks) == (if a in mem then mem[a].size else 0)
          + TotalSize(mem, blocks - {a});
      assert Tile(mem, base, owner, a);
      var own := TakeTile(mem, base, blocks, owner, a);
      Conservation(mem, base, blocks - {a}, owner - own);
    }
  }

  lemma {:induction false} TotalSizeSplit(mem: Memory, blocks: set<nat>, some: set<nat>)
    requires some <= blocks
    ensures TotalSize(mem, blocks) == TotalSize(mem, some) + TotalSize(mem, blocks - some)
    decreases |some|
  {
    if some == {} {
      assert blocks - some == blocks;
    } else {
      var a :| a in some;
      TakeOut(mem, blocks, a);
      TakeOut(mem, some, a);
      TotalSizeSplit(mem, blocks - {a}, some - {a});
      assert blocks - {a} - (some - {a}) == blocks - some;
    }
  }

  lemma {:induction false} TakeOut(mem: Memory, blocks: set<nat>, a: nat)
    requires a in blocks
    ensures TotalSize(mem, blocks) == (if a in mem then mem[a].size else 0) + TotalSize(mem, blocks - {a})
    decreases |blocks|
  {
    var b :| b in blocks && TotalSize(mem, blocks) == (if b in mem then mem[b].size else 0)
        + TotalSize(mem, blocks - {b});
    if b != a {
      TakeOut(mem, blocks - {b}, a);
      TakeOut(mem, blocks - {a}, b);
      assert blocks - {b} - {a} == blocks - {a} - {b};
    }
  }

  /* ---- the list itself ---- */

  // Entry i points to the next entry, the last one back to the first.
  ghost predicate LinkAt(mem: Memory, fl: seq<nat>, i: nat)
    requires i < |fl|
  {
    fl[i] in mem && mem[fl[i]].ptr == if i + 1 < |fl| then fl[i + 1] else fl[0]
  }

  // One circle in address order, starting at the static header `base`.
  ghost predicate Circular(mem: Memory, base: nat, fl: seq<nat>) {
    && |fl| >= 1 && fl[0] == base
    && (forall i, j | 0 <= i < j < |fl| :: fl[i] < fl[j])
    && (forall i | 0 <= i < |fl| :: LinkAt(mem, fl, i))
  }

  ghost predicate OnList(fl: seq<nat>, a: nat) {
    exists i | 1 <= i < |fl| :: fl[i] == a
  }

  // The list holds exactly the blocks that are not live.
  ghost predicate Listed(fl: seq<nat>, blocks: set<nat>, live: set<nat>) {
    && live <= blocks && |fl| >= 1
    && (forall i | 1 <= i < |fl| :: fl[i] in blocks && fl[i] !in live)
    && (forall a {:trigger OnList(fl, a)} | a in blocks && a !in live :: OnList(fl, a))
  }

  // Entry i does not touch the next entry, which it would have been merged with.
  ghost predicate Apart(mem: Memory, fl: seq<nat>, i: nat)
    requires i + 1 < |fl|
  {
    fl[i] in mem && fl[i] + mem[fl[i]].size != fl[i + 1]
  }

  ghost predicate Coalesced(mem: Memory, fl: seq<nat>) {
    forall i | 0 <= i < |fl| - 1 :: Apart(mem, fl, i)
  }

  // Blocks on the list do not reach into each other.
  lemma NoOverlap(mem: Memory, base: nat, fl: seq<nat>, blocks: set<nat>, live: set<nat>, owner: map<nat, nat>, i: nat)
    requires Circular(mem, base, fl) && Tiling(mem, base, blocks, owner) && Listed(fl, blocks, live) && i + 1 < |fl|
    ensures fl[i] + mem[fl[i]].size <= fl[i + 1]
  {
    assert LinkAt(mem, fl, i);
    assert Tile(mem, base, owner, fl[i + 1]);
    assert owner[fl[i + 1]] == fl[i + 1];
    if i > 0 { assert Tile(mem, base, owner, fl[i]); }
  }

  // fl' is fl with bp put in after entry i.
  ghost predicate Inserts(fl: seq<nat>, fl': seq<nat>, i: nat, bp: nat) {
    && i < |fl| && |fl'| == |fl| + 1 && fl'[i + 1] == bp
    && (forall k | 0 <= k <= i :: fl'[k] == fl[k])
    && (forall k | i < k < |fl| :: fl'[k + 1] == fl[k])
  }

  // fl' is fl without entry k.
  ghost predicate Removes(fl: seq<nat>, fl': seq<nat>, k: nat) {
    && 1 <= k < |fl| && |fl'| == |fl| - 1
    && (forall m | 0 <= m < k :: fl'[m] == fl[m])
    && (forall m | k < m < |fl| :: fl'[m - 1] == fl[m])
  }

  lemma InsertCircular(mem: Memory, mem': Memory, base: nat, fl: seq<nat>, fl': seq<nat>, i: nat, bp: nat)
    requires Circular(mem, base, fl) && Inserts(fl, fl', i, bp) && fl[i] < bp && (i + 1 < |fl| ==> bp < fl[i + 1])
    requires fl[i] in mem && fl[i] in mem' && bp in mem' && mem'[bp].ptr == mem[fl[i]].ptr && mem'[fl[i]].ptr == bp
    requires forall a | a in mem && a != bp && a != fl[i] :: a in mem' && mem'[a].ptr == mem[a].ptr
    ensures Circular(mem', base, fl')
  {
    assert LinkAt(mem, fl, i);
    forall k | 0 <= k < |fl'|
      ensures LinkAt(mem', fl', k)
    {
      if k < i {
        assert LinkAt(mem, fl, k);
      } else if k > i + 1 {
        assert LinkAt(mem, fl, k - 1);
      }
    }
    forall j, k | 0 <= j < k < |fl'|
      ensures fl'[j] < fl'[k]
    {
      assert fl'[k] == if k <= i then fl[k] else if k == i + 1 then bp else fl[k - 1];
      assert fl'[j] == if j <= i then fl[j] else if j == i + 1 then bp else fl[j - 1];
    }
  }

  lemma RemoveCircular(mem: Memory, mem': Memory, base: nat, fl: seq<nat>, fl': seq<nat>, k: nat)
    requires Circular(mem, base, fl) && Removes(fl, fl', k)
    requires fl[k] in mem && fl[k - 1] in mem' && mem'[fl[k - 1]].ptr == mem[fl[k]].ptr
    requires forall a | a in mem && a != fl[k - 1] && a != fl[k] :: a in mem' && mem'[a].ptr == mem[a].ptr
    ensures Circular(mem', base, fl')
  {
    assert LinkAt(mem, fl, k - 1) && LinkAt(mem, fl, k);
    forall m | 0 <= m < |fl'|
      ensures LinkAt(mem', fl', m)
    {
      if m < k - 1 {
        assert LinkAt(mem, fl, m);
      } else if m >= k {
        assert LinkAt(mem, fl, m + 1);
      }
    }
    forall j, m | 0 <= j < m < |fl'|
      ensures fl'[j] < fl'[m]
    {
      assert fl'[m] == if m < k then fl[m] else fl[m + 1];
      assert fl'[j] == if j < k then fl[j] else fl[j + 1];
    }
  }

  lemma InsertListed(fl: seq<nat>, fl': seq<nat>, blocks: set<nat>, live: set<nat>, i: nat, bp: nat)
    requires Listed(fl, blocks, live) && Inserts(fl, fl', i, bp) && bp in live
    ensures Listed(fl', blocks, live - {bp})
  {
    forall k | 1 <= k < |fl'|
      ensures fl'[k] in blocks && fl'[k] !in live - {bp}
    {
      if k > i + 1 { assert fl'[(k - 1) + 1] == fl[k - 1]; }
    }
    forall a | a in blocks && a !in live - {bp}
      ensures OnList(fl', a)
    {
      if a == bp {
        assert fl'[i + 1] == bp;
      } else {
        assert OnList(fl, a);
        var k :| 1 <= k < |fl| && fl[k] == a;
        assert fl'[if k <= i then k else k + 1] == a;
      }
    }
  }

  lemma RemoveListed(fl: seq<nat>, fl': seq<nat>, blocks: set<nat>, live: set<nat>, k: nat)
    requires Listed(fl, blocks, live) && Removes(fl, fl', k)
    requires forall i, j | 0 <= i < j < |fl| :: fl[i] < fl[j]
    ensures Listed(fl', blocks, live + {fl[k]})
    ensures Listed(fl', blocks - {fl[k]}, live)
  {
    forall m | 1 <= m < |fl'|
      ensures fl'[m] in blocks && fl'[m] !in live && fl'[m] != fl[k]
    {
      if m >= k { assert fl'[(m + 1) - 1] == fl[m + 1]; }
    }
    forall a | a in blocks && a !in live && a != fl[k]
      ensures OnList(fl', a)
    {
      assert OnList(fl, a);
      var m :| 1 <= m < |fl| && fl[m] == a;
      assert fl'[if m < k then m else m - 1] == a;
    }
  }

  /* ---- the allocator's invariant, and the steps of free and malloc ---- */

  // The bookkeeping behind the memory: the free list in address order, all blocks and the
  // live ones among them (by header address), and the block each unit belongs to.
  datatype Books = Books(fl: seq<nat>, blocks: set<nat>, live: set<nat>, owner: map<nat, nat>)

  ghost predicate Heap(mem: Memory, base: nat, k: Books) {
    Circular(mem, base, k.fl) && Tiling(mem, base, k.blocks, k.owner) && Listed(k.fl, k.blocks, k.live)
  }

  datatype Aspect = Circle | Tiles | Members | Gaps

  ghost predicate Holds(x: Aspect, mem: Memory, base: nat, k: Books) {
    match x
    case Circle => Circular(mem, base, k.fl)
    case Tiles => Tiling(mem, base, k.blocks, k.owner)
    case Members => Listed(k.fl, k.blocks, k.live)
    case Gaps => Coalesced(mem, k.fl)
  }

  /** The heap between calls: a circle in address order of exactly the blocks that are not live, which with the
      live ones tile the units obtained from sbrk, and no two of which touch. */
  ghost predicate Good(mem: Memory, base: nat, k: Books) {
    forall x: Aspect :: Holds(x, mem, base, k)
  }

  lemma Unpack(mem: Memory, base: nat, k: Books)
    requires Good(mem, base, k)
    ensures Heap(mem, base, k) && Coalesced(mem, k.fl)
  {
    assert Holds(Circle, mem, base, k) && Holds(Tiles, mem, base, k) && Holds(Members, mem, base, k)
        && Holds(Gaps, mem, base, k);
  }

  lemma Pack(mem: Memory, base: nat, k: Books)
    requires Heap(mem, base, k) && Coalesced(mem, k.fl)
    ensures Good(mem, base, k)
  {
  }

  lemma OnCircle(mem: Memory, base: nat, k: Books, p: nat)
    requires Good(mem, base, k) && p in k.fl
    ensures p >= base && p in mem && base in mem
  {
    Unpack(mem, base, k);
    var i :| 0 <= i < |k.fl| && k.fl[i] == p;
    assert LinkAt(mem, k.fl, i) && LinkAt(mem, k.fl, 0);
  }

  /** No two blocks, live or free, have a unit in common. */
  lemma BlocksDisjoint(mem: Memory, base: nat, k: Books, a: nat, b: nat, u: nat)
    requires Good(mem, base, k) && a in k.blocks && b in k.blocks && a in mem && b in mem
    requires a <= u < a + mem[a].size && b <= u < b + mem[b].size
    ensures a == b
  {
    Unpack(mem, base, k);
    assert Tile(mem, base, k.owner, a) && Tile(mem, base, k.owner, b);
    assert k.owner[u] == a && k.owner[u] == b;
  }

  /** Free units plus live units are the units obtained from sbrk. */
  lemma FreePlusLive(mem: Memory, base: nat, k: Books)
    requires Good(mem, base, k)
    ensures TotalSize(mem, k.live) + TotalSize(mem, set i | 1 <= i < |k.fl| :: k.fl[i]) == |k.owner|
  {
    Unpack(mem, base, k);
    Conservation(mem, base, k.blocks, k.owner);
    TotalSizeSplit(mem, k.blocks, k.live);
    var free := set i | 1 <= i < |k.fl| :: k.fl[i];
    forall a | a in k.blocks && a !in k.live
      ensures a in free
    {
      assert OnList(k.fl, a);
    }
    assert free == k.blocks - k.live;
  }

  // bp->s.ptr = p->s.ptr; p->s.ptr = bp;
  function LinkIn(mem: Memory, p: nat, bp: nat): Memory
    requires p in mem && bp in mem
  {
    mem[bp := Header(mem[p].ptr, mem[bp].size)][p := Header(bp, mem[p].size)]
  }

  lemma MakeInserts(fl: seq<nat>, i: nat, bp: nat) returns (fl': seq<nat>)
    requires i < |fl|
    ensures Inserts(fl, fl', i, bp)
  {
    fl' := fl[..i + 1] + [bp] + fl[i + 1..];
  }

  lemma MakeRemoves(fl: seq<nat>, k: nat) returns (fl': seq<nat>)
    requires 1 <= k < |fl|
    ensures Removes(fl, fl', k)
  {
    fl' := fl[..k] + fl[k + 1..];
  }

  lemma InsertStep(mem: Memory, mem': Memory, base: nat, k: Books, fl': seq<nat>, i: nat, bp: nat)
    requires Heap(mem, base, k) && bp in k.live && Inserts(k.fl, fl', i, bp)
    requires k.fl[i] < bp && (i + 1 < |k.fl| ==> bp < k.fl[i + 1])
    requires k.fl[i] in mem && bp in mem && mem' == LinkIn(mem, k.fl[i], bp)
    ensures Heap(mem', base, k.(fl := fl', live := k.live - {bp}))
  {
    InsertCircular(mem, mem', base, k.fl, fl', i, bp);
    InsertListed(k.fl, fl', k.blocks, k.live, i, bp);
    SameSizes(mem, mem', base, k.blocks, k.owner);
  }

  lemma InsertApart(mem: Memory, mem': Memory, fl: seq<nat>, fl': seq<nat>, i: nat, bp: nat, m: nat)
    requires Inserts(fl, fl', i, bp) && m + 1 < |fl'| && m != i && m != i + 1
    requires Apart(mem, fl, if m < i then m else m - 1)
    requires forall a | a in mem :: a in mem' && mem'[a].size == mem[a].size
    ensures Apart(mem', fl', m)
  {
    if m > i + 1 { assert fl'[(m - 1) + 1] == fl[m - 1] && fl'[m + 1] == fl[m]; }
  }

  // a->s.size += b->s.size; a->s.ptr = b->s.ptr;
  function Absorbed(mem: Memory, a: nat, b: nat): Memory
    requires a in mem && b in mem
  {
    mem[a := Header(mem[b].ptr, mem[a].size + mem[b].size)]
  }

  ghost function MergedBooks(mem: Memory, k: Books, fl': seq<nat>, a: nat, b: nat): (k': Books)
    requires b in mem
    ensures k'.owner.Keys == k.owner.Keys
  {
    Books(fl', k.blocks - {b}, k.live, Relabel(k.owner, b, b + mem[b].size, a))
  }

  lemma MergeStep(mem: Memory, base: nat, k: Books, fl': seq<nat>, i: nat, a: nat, b: nat)
    requires Heap(mem, base, k) && 1 <= i && Removes(k.fl, fl', i + 1)
    requires a == k.fl[i] && b == k.fl[i + 1] && a in mem && b in mem && a + mem[a].size == b
    ensures Heap(Absorbed(mem, a, b), base, MergedBooks(mem, k, fl', a, b))
  {
    var mem' := Absorbed(mem, a, b);
    assert Tile(mem, base, k.owner, a) && Tile(mem, base, k.owner, b);
    RemoveCircular(mem, mem', base, k.fl, fl', i + 1);
    RemoveListed(k.fl, fl', k.blocks, k.live, i + 1);
    MergeTiles(mem, mem', base, k.blocks, k.owner, a, b);
  }

  lemma MergeApart(mem: Memory, base: nat, k: Books, fl': seq<nat>, i: nat, a: nat, b: nat, m: nat)
    requires Circular(mem, base, k.fl) && 1 <= i && Removes(k.fl, fl', i + 1) && m + 1 < |fl'|
    requires a == k.fl[i] && b == k.fl[i + 1] && a in mem && b in mem && a + mem[a].size == b
    requires Apart(mem, k.fl, if m < i then m else m + 1)
    ensures Apart(Absorbed(mem, a, b), fl', m)
  {
    assert m + 1 >= i + 1 ==> fl'[(m + 2) - 1] == k.fl[m + 2];
    assert m > i ==> fl'[(m + 1) - 1] == k.fl[m + 1];
  }

  // prevp->s.ptr = p->s.ptr, the block leaving the list whole.
  lemma TakeStep(mem: Memory, mem': Memory, base: nat, k: Books, fl': seq<nat>, i: nat)
    requires Heap(mem, base, k) && Removes(k.fl, fl', i) && k.fl[i] in mem && k.fl[i - 1] in mem
    requires mem' == mem[k.fl[i - 1] := Header(mem[k.fl[i]].ptr, mem[k.fl[i - 1]].size)]
    ensures Heap(mem', base, k.(fl := fl', live := k.live + {k.fl[i]}))
  {
    RemoveCircular(mem, mem', base, k.fl, fl', i);
    RemoveListed(k.fl, fl', k.blocks, k.live, i);
    SameSizes(mem, mem', base, k.blocks, k.owner);
  }

  lemma TakeApart(mem: Memory, mem': Memory, base: nat, k: Books, fl': seq<nat>, i: nat, m: nat)
    requires Heap(mem, base, k) && Coalesced(mem, k.fl) && Removes(k.fl, fl', i) && m + 1 < |fl'|
    requires forall a | a in mem :: a in mem' && mem'[a].size == mem[a].size
    ensures Apart(mem', fl', m)
  {
    assert Apart(mem, k.fl, if m < i then m else m + 1);
    assert m + 1 >= i ==> fl'[(m + 2) - 1] == k.fl[m + 2];
    assert m >= i ==> fl'[(m + 1) - 1] == k.fl[m + 1];
    if m == i - 1 {
      NoOverlap(mem, base, k.fl, k.blocks, k.live, k.owner, m);
    }
  }

  // p->s.size -= n; p += p->s.size; p->s.size = n: the tail of the block goes to the caller.
  function Carved(mem: Memory, p: nat, n: nat): Memory
    requires p in mem && 0 < n < mem[p].size && p + mem[p].size - n in mem
  {
    var c := p + mem[p].size - n;
    mem[p := Header(mem[p].ptr, mem[p].size - n)][c := Header(mem[c].ptr, n)]
  }

  ghost function CarvedBooks(k: Books, c: nat, n: nat): (k': Books)
    ensures k'.owner.Keys == k.owner.Keys
  {
    Books(k.fl, k.blocks + {c}, k.live + {c}, Relabel(k.owner, c, c + n, c))
  }

  lemma CarveStep(mem: Memory, base: nat, k: Books, i: nat, p: nat, c: nat, n: nat)
    requires Heap(mem, base, k) && 1 <= i < |k.fl| && p == k.fl[i] && p in mem
    requires 0 < n < mem[p].size && c == p + mem[p].size - n
    ensures c in mem && c !in k.blocks && c !in k.fl
    ensures Heap(Carved(mem, p, n), base, CarvedBooks(k, c, n))
  {
    assert Tile(mem, base, k.owner, p);
    assert Owned(mem, k.blocks, k.owner, c);
    var mem' := Carved(mem, p, n);
    SplitTile(mem, mem', base, k.blocks, k.owner, p, n, c);
    assert c !in k.fl;
    forall m | 0 <= m < |k.fl|
      ensures LinkAt(mem', k.fl, m)
    {
      assert LinkAt(mem, k.fl, m);
    }
  }

  lemma CarveApart(mem: Memory, base: nat, k: Books, i: nat, p: nat, c: nat, n: nat, m: nat)
    requires Heap(mem, base, k) && Coalesced(mem, k.fl) && 1 <= i < |k.fl| && p == k.fl[i] && p in mem
    requires 0 < n < mem[p].size && c == p + mem[p].size - n && c in mem && c !in k.fl && m + 1 < |k.fl|
    ensures Apart(Carved(mem, p, n), k.fl, m)
  {
    assert Apart(mem, k.fl, m);
    if m == i { NoOverlap(mem, base, k.fl, k.blocks, k.live, k.owner, m); }
  }

  /* ---- free, from the point where it has found its place in the list ---- */

  // umalloc.c:33-42, statement by statement.
  function FreedMem(mem: Memory, p: nat, bp: nat): Memory
    requires p in mem && bp in mem && mem[p].ptr in mem
  {
    var q := mem[p].ptr;
    var m1 := if bp + mem[bp].size == q
              then mem[bp := Header(mem[q].ptr, mem[bp].size + mem[q].size)]
              else mem[bp := Header(q, mem[bp].size)];
    if p + m1[p].size == bp
    then m1[p := Header(m1[bp].ptr, m1[p].size + m1[bp].size)]
    else m1[p := Header(bp, m1[p].size)]
  }

  // The list has an entry of at least n units.
  ghost predicate Roomy(mem: Memory, fl: seq<nat>, j: nat, n: nat)
    requires j < |fl|
  {
    fl[j] in mem && mem[fl[j]].size >= n
  }

  ghost predicate HasSize(mem: Memory, fl: seq<nat>, n: nat) {
    exists j | 0 <= j < |fl| :: Roomy(mem, fl, j, n)
  }

  lemma SmallerFits(mem: Memory, fl: seq<nat>, n: nat, m: nat)
    requires HasSize(mem, fl, n) && m <= n
    ensures HasSize(mem, fl, m)
  {
    var j :| 0 <= j < |fl| && Roomy(mem, fl, j, n);
    assert Roomy(mem, fl, j, m);
  }

  ghost predicate Goes(k: Books, i: nat, bp: nat) {
    i < |k.fl| && k.fl[i] < bp && (i + 1 < |k.fl| ==> bp < k.fl[i + 1])
  }

  // The caller's blocks and the units they own are as they were.
  ghost predicate SameLive(k: Books, k': Books) {
    forall u | u in k.owner && k.owner[u] in k.live && k.owner[u] in k'.live ::
        u in k'.owner && k'.owner[u] == k.owner[u]
  }

  ghost predicate ApartExcept(mem: Memory, fl: seq<nat>, x: nat, y: nat) {
    forall m | 0 <= m < |fl| - 1 && m != x && m != y :: Apart(mem, fl, m)
  }

  lemma LinkBlock(mem: Memory, base: nat, k: Books, i: nat, bp: nat) returns (k': Books)
    requires Heap(mem, base, k) && Coalesced(mem, k.fl) && bp in k.live && Goes(k, i, bp)
    requires k.fl[i] in mem && bp in mem
    ensures Heap(LinkIn(mem, k.fl[i], bp), base, k') && Inserts(k.fl, k'.fl, i, bp)
    ensures k'.live == k.live - {bp} && k'.owner == k.owner
    ensures ApartExcept(LinkIn(mem, k.fl[i], bp), k'.fl, i, i + 1)
  {
    var fl' := MakeInserts(k.fl, i, bp);
    var mem' := LinkIn(mem, k.fl[i], bp);
    k' := k.(fl := fl', live := k.live - {bp});
    InsertStep(mem, mem', base, k, fl', i, bp);
    forall m | 0 <= m < |fl'| - 1 && m != i && m != i + 1
      ensures Apart(mem', fl', m)
    {
      assert Apart(mem, k.fl, if m < i then m else m - 1);
      InsertApart(mem, mem', k.fl, fl', i, bp, m);
    }
  }

  lemma MergeApartAll(mem: Memory, base: nat, k: Books, fl': seq<nat>, i: nat, a: nat, b: nat, x: nat)
    requires Circular(mem, base, k.fl) && 1 <= i && Removes(k.fl, fl', i + 1)
    requires a == k.fl[i] && b == k.fl[i + 1] && a in mem && b in mem && a + mem[a].size == b
    requires ApartExcept(mem, k.fl, x, i) && x <= i
    ensures x < i ==> ApartExcept(Absorbed(mem, a, b), fl', x, x)
    ensures x == i ==> Coalesced(Absorbed(mem, a, b), fl')
  {
    forall m | 0 <= m < |fl'| - 1 && (m != x || x == i)
      ensures Apart(Absorbed(mem, a, b), fl', m)
    {
      assert Apart(mem, k.fl, if m < i then m else m + 1);
      MergeApart(mem, base, k, fl', i, a, b, m);
    }
  }

  // Merge entries i and i + 1, which touch.
  lemma MergeBlocks(mem: Memory, base: nat, k: Books, i: nat, a: nat, b: nat, x: nat) returns (k': Books)
    requires Heap(mem, base, k) && 1 <= i && i + 1 < |k.fl|
    requires a == k.fl[i] && b == k.fl[i + 1] && a in mem && b in mem && a + mem[a].size == b
    requires ApartExcept(mem, k.fl, x, i) && x <= i
    ensures Heap(Absorbed(mem, a, b), base, k') && Removes(k.fl, k'.fl, i + 1)
    ensures k'.live == k.live && k'.owner.Keys == k.owner.Keys && SameLive(k, k')
    ensures x < i ==> ApartExcept(Absorbed(mem, a, b), k'.fl, x, x)
    ensures x == i ==> Coalesced(Absorbed(mem, a, b), k'.fl)
  {
    var fl' := MakeRemoves(k.fl, i + 1);
    k' := MergedBooks(mem, k, fl', a, b);
    MergeStep(mem, base, k, fl', i, a, b);
    MergeApartAll(mem, base, k, fl', i, a, b, x);
    MergeKeepsLive(mem, base, k, fl', i + 1, a, b);
  }

  lemma MergeKeepsLive(mem: Memory, base: nat, k: Books, fl': seq<nat>, i: nat, a: nat, b: nat)
    requires Heap(mem, base, k) && 1 <= i < |k.fl| && b == k.fl[i] && b in mem
    ensures SameLive(k, MergedBooks(mem, k, fl', a, b))
  {
    assert Tile(mem, base, k.owner, b);
  }

  // bp is linked in after p; merge it with the entry after it if they touch.
  lemma MergeUp(m1: Memory, base: nat, k1: Books, i: nat, bp: nat, q: nat) returns (k2: Books)
    requires Heap(m1, base, k1) && i + 1 < |k1.fl| && k1.fl[i + 1] == bp && ApartExcept(m1, k1.fl, i, i + 1)
    requires bp in m1 && q == if i + 2 < |k1.fl| then k1.fl[i + 2] else base
    ensures q in m1 && (bp + m1[bp].size == q ==> i + 2 < |k1.fl|)
    ensures Heap(if bp + m1[bp].size == q then Absorbed(m1, bp, q) else m1, base, k2)
    ensures ApartExcept(if bp + m1[bp].size == q then Absorbed(m1, bp, q) else m1, k2.fl, i, i)
    ensures i + 1 < |k2.fl| && k2.fl[i] == k1.fl[i] && k2.fl[i + 1] == bp
    ensures k2.live == k1.live && k2.owner.Keys == k1.owner.Keys && SameLive(k1, k2)
  {
    assert LinkAt(m1, k1.fl, 0);
    assert Tile(m1, base, k1.owner, bp);
    k2 := k1;
    if i + 2 < |k1.fl| {
      assert LinkAt(m1, k1.fl, i + 2);
      if bp + m1[bp].size == q {
        k2 := MergeBlocks(m1, base, k1, i + 1, bp, q, i);
      } else {
        assert Apart(m1, k1.fl, i + 1);
      }
    }
  }

  // Then merge bp into p if they touch.
  lemma MergeDown(m2: Memory, base: nat, k2: Books, i: nat, p: nat, bp: nat) returns (k': Books)
    requires Heap(m2, base, k2) && i + 1 < |k2.fl| && k2.fl[i] == p && k2.fl[i + 1] == bp
    requires ApartExcept(m2, k2.fl, i, i) && p in m2 && bp in m2
    ensures Heap(if p + m2[p].size == bp then Absorbed(m2, p, bp) else m2, base, k')
    ensures Coalesced(if p + m2[p].size == bp then Absorbed(m2, p, bp) else m2, k'.fl)
    ensures i < |k'.fl| && k'.fl[i] == p
    ensures p + m2[p].size != bp ==> i + 1 < |k'.fl| && k'.fl[i + 1] == bp
    ensures k'.live == k2.live && k'.owner.Keys == k2.owner.Keys && SameLive(k2, k')
  {
    k' := k2;
    if p + m2[p].size == bp {
      assert i != 0;
      k' := MergeBlocks(m2, base, k2, i, p, bp, i);
    } else {
      assert Apart(m2, k2.fl, i);
    }
  }

  lemma FreedMemSteps(mem: Memory, p: nat, bp: nat)
    requires p in mem && bp in mem && p != bp && mem[p].ptr in mem && mem[p].ptr != bp
    requires bp + mem[bp].size == mem[p].ptr ==> mem[p].ptr != p
    ensures var q, m1 := mem[p].ptr, LinkIn(mem, p, bp);
            var m2 := if bp + m1[bp].size == q then Absorbed(m1, bp, q) else m1;
            && (if p + m2[p].size == bp then Absorbed(m2, p, bp) else m2) == FreedMem(mem, p, bp)
            && m2[p].size == mem[p].size
  {
  }

  /** The code after the search keeps the list circular, ordered and fully coalesced, moves
      exactly the block bp from live to free, and touches only the headers p and bp. */
  lemma FreeKeeps(mem: Memory, base: nat, k: Books, i: nat, bp: nat) returns (k': Books)
    requires Heap(mem, base, k) && Coalesced(mem, k.fl) && bp in k.live && Goes(k, i, bp)
    requires k.fl[i] in mem && bp in mem && mem[k.fl[i]].ptr in mem
    ensures var mem' := FreedMem(mem, k.fl[i], bp);
            && Heap(mem', base, k') && Coalesced(mem', k'.fl)
            && forall u | u in mem && u != k.fl[i] && u != bp :: mem'[u] == mem[u]
    ensures k'.live == k.live - {bp} && k'.owner.Keys == k.owner.Keys && SameLive(k, k')
    ensures k.fl[i] in k'.fl
    ensures HasSize(FreedMem(mem, k.fl[i], bp), k'.fl, mem[bp].size)
  {
    var p, q := k.fl[i], mem[k.fl[i]].ptr;
    assert LinkAt(mem, k.fl, i);
    assert Tile(mem, base, k.owner, bp);
    var m1 := LinkIn(mem, p, bp);
    var k1 := LinkBlock(mem, base, k, i, bp);
    assert i + 1 < |k.fl| ==> k1.fl[(i + 1) + 1] == q;
    var k2 := MergeUp(m1, base, k1, i, bp, q);
    var m2 := if bp + m1[bp].size == q then Absorbed(m1, bp, q) else m1;
    k' := MergeDown(m2, base, k2, i, p, bp);
    FreedMemSteps(mem, p, bp);
    assert Roomy(FreedMem(mem, p, bp), k'.fl, if p + m2[p].size == bp then i else i + 1, mem[bp].size);
  }
}

/** malloc, free and morecore (umalloc.c:21-90). */
module UserHeap {
  import opened FreeList
  import opened Options

  const HEADER_BYTES: nat := 8
  const MIN_UNITS: nat := 4096
  const TWO32: nat := 0x1_0000_0000

  // Units for nbytes bytes and a header, in the source's 32-bit unsigned arithmetic.
  function UnitsFor(nbytes: nat): (n: nat)
    ensures n >= 1
  {
    (nbytes + HEADER_BYTES - 1) % TWO32 / HEADER_BYTES + 1
  }

  /** The block malloc reserves is large enough exactly when rounding up does not wrap, and then no larger than it has
      to be. */
  lemma EnoughBytesIff(nbytes: nat)
    requires nbytes < TWO32
    ensures (UnitsFor(nbytes) - 1) * HEADER_BYTES >= nbytes <==> nbytes + HEADER_BYTES - 1 < TWO32
    ensures nbytes + HEADER_BYTES - 1 < TWO32 ==> (UnitsFor(nbytes) - 2) * HEADER_BYTES < nbytes
  {
  }

  // Fresh memory from the kernel.
  function Zeroed(r: nat, n: nat): (m: Memory)
    ensures forall u :: u in m <==> r <= u < r + n
  {
    if n == 0 then map[] else Zeroed(r, n - 1)[r + n - 1 := Header(0, 0)]
  }

  function Grow(nunits: nat): nat {
    if nunits < MIN_UNITS then MIN_UNITS else nunits
  }

  // What sbrk is asked for: the product is unsigned, and sbrk takes it for an int.
  function Request(nu: nat): int {
    var n := Grow(nu) * HEADER_BYTES % TWO32;
    if n < TWO32 / 2 then n else n - TWO32
  }

  /** morecore asks sbrk for the room it then uses exactly when that is below 2^28 units; malloc reaches this
      bound when it is asked for more than 2^31 - 16 bytes. */
  lemma SbrkRequestIff(nbytes: nat)
    requires nbytes + HEADER_BYTES - 1 < TWO32
    ensures Request(UnitsFor(nbytes)) == Grow(UnitsFor(nbytes)) * HEADER_BYTES <==>
        nbytes <= TWO32 / 2 - 2 * HEADER_BYTES
  {
  }

  // Every unit of a block that stays live keeps its contents and its owner.
  ghost predicate KeptLive(mem: Memory, mem': Memory, k: Books, k': Books) {
    && SameLive(k, k')
    && forall u | u in k.owner && k.owner[u] in k.live && k.owner[u] in k'.live ::
        u in mem && u in mem' && mem'[u] == mem[u]
  }

  lemma FreeKeepsLive(mem: Memory, mem': Memory, base: nat, k: Books, k': Books, i: nat, bp: nat)
    requires FreeList.Heap(mem, base, k) && i < |k.fl| && bp in k.live && SameLive(k, k') && bp !in k'.live
    requires mem'.Keys >= mem.Keys && forall u | u in mem && u != k.fl[i] && u != bp :: mem'[u] == mem[u]
    ensures KeptLive(mem, mem', k, k')
  {
    assert Tile(mem, base, k.owner, bp) && k.owner[bp] == bp;
    if i > 0 { assert Tile(mem, base, k.owner, k.fl[i]) && k.owner[k.fl[i]] == k.fl[i]; }
    forall u | u in k.owner && k.owner[u] in k.live && k.owner[u] in k'.live
      ensures u in mem && u in mem' && mem'[u] == mem[u]
    {
      assert Owned(mem, k.blocks, k.owner, u);
    }
  }

  lemma PlaceKnown(mem: Memory, base: nat, k: Books, i: nat, bp: nat)
    requires Good(mem, base, k) && i < |k.fl| && bp in k.live
    ensures k.fl[i] in mem && bp in mem && mem[k.fl[i]].ptr in mem && mem[bp].size > 0
  {
    Unpack(mem, base, k);
    assert LinkAt(mem, k.fl, i) && LinkAt(mem, k.fl, if i + 1 < |k.fl| then i + 1 else 0);
    assert Tile(mem, base, k.owner, bp);
  }

  lemma SbrkLinks(mem: Memory, mem': Memory, base: nat, k: Books, r: nat, n: nat, i: nat)
    requires FreeList.Heap(mem, base, k) && r > base && i < |k.fl|
    requires forall u | r <= u < r + n :: u !in k.owner && u in mem'
    requires forall a | a in mem && !(r <= a < r + n) :: a in mem' && mem'[a] == mem[a]
    ensures LinkAt(mem', k.fl, i) && k.fl[i] in mem && !(r <= k.fl[i] < r + n)
  {
    assert LinkAt(mem, k.fl, i);
    if i > 0 { assert Tile(mem, base, k.owner, k.fl[i]) && k.fl[i] in k.owner; }
  }

  lemma SbrkHeap(mem: Memory, mem': Memory, base: nat, k: Books, k': Books, r: nat, n: nat)
    requires FreeList.Heap(mem, base, k) && Coalesced(mem, k.fl) && r > base && n > 0
    requires forall u | r <= u < r + n :: u !in k.owner && u in mem'
    requires mem'[r].size == n && forall a | a in mem && !(r <= a < r + n) :: a in mem' && mem'[a] == mem[a]
    requires k' == Books(k.fl, k.blocks + {r}, k.live + {r}, k.owner + Region(r, n))
    ensures FreeList.Heap(mem', base, k') && Coalesced(mem', k.fl)
  {
    AddTile(mem, mem', base, k.blocks, k.owner, r, n);
    SbrkList(mem, mem', base, k, r, n);
  }

  // The list is as it was.
  lemma SbrkList(mem: Memory, mem': Memory, base: nat, k: Books, r: nat, n: nat)
    requires FreeList.Heap(mem, base, k) && Coalesced(mem, k.fl) && r > base && n > 0
    requires forall u | r <= u < r + n :: u !in k.owner && u in mem'
    requires forall a | a in mem && !(r <= a < r + n) :: a in mem' && mem'[a] == mem[a]
    ensures Coalesced(mem', k.fl)
    ensures forall i | 0 <= i < |k.fl| :: LinkAt(mem', k.fl, i) && k.fl[i] in mem && !(r <= k.fl[i] < r + n)
  {
    forall i | 0 <= i < |k.fl|
      ensures LinkAt(mem', k.fl, i) && k.fl[i] in mem && !(r <= k.fl[i] < r + n)
    {
      SbrkLinks(mem, mem', base, k, r, n, i);
    }
    forall i | 0 <= i < |k.fl| - 1
      ensures Apart(mem', k.fl, i)
    {
      assert Apart(mem, k.fl, i) && LinkAt(mem', k.fl, i);
    }
  }

  lemma SbrkLive(mem: Memory, mem': Memory, base: nat, k: Books, k': Books, r: nat, n: nat)
    requires FreeList.Heap(mem, base, k) && n > 0 && (forall u | r <= u < r + n :: u !in k.owner)
    requires forall a | a in mem && !(r <= a < r + n) :: a in mem' && mem'[a] == mem[a]
    requires k' == Books(k.fl, k.blocks + {r}, k.live + {r}, k.owner + Region(r, n))
    ensures KeptLive(mem, mem', k, k') && r !in k.live
  {
    forall u | u in k.owner
      ensures u in mem && u in mem' && mem'[u] == mem[u]
    {
      assert Owned(mem, k.blocks, k.owner, u);
    }
    assert forall a | a in k.live :: Tile(mem, base, k.owner, a);
  }

  lemma SbrkStep(mem: Memory, mem': Memory, base: nat, k: Books, k': Books, r: nat, n: nat)
    requires Good(mem, base, k) && r > base && n > 0
    requires forall u | r <= u < r + n :: u !in k.owner && u in mem'
    requires mem'[r].size == n && forall a | a in mem && !(r <= a < r + n) :: a in mem' && mem'[a] == mem[a]
    requires k' == Books(k.fl, k.blocks + {r}, k.live + {r}, k.owner + Region(r, n))
    ensures Good(mem', base, k') && KeptLive(mem, mem', k, k') && r !in k.live
  {
    Unpack(mem, base, k);
    SbrkHeap(mem, mem', base, k, k', r, n);
    SbrkLive(mem, mem', base, k, k', r, n);
    Pack(mem', base, k');
  }

  lemma StoreTiling(mem: Memory, base: nat, k: Books, u: nat, h: Header)
    requires Tiling(mem, base, k.blocks, k.owner) && u in k.owner && k.owner[u] != u
    ensures Tiling(mem[u := h], base, k.blocks, k.owner) && u !in k.blocks
  {
    var mem' := mem[u := h];
    forall a | a in k.blocks
      ensures a != u && Tile(mem', base, k.owner, a)
    {
      assert Tile(mem, base, k.owner, a) && k.owner[a] == a;
    }
    forall v | v in k.owner
      ensures Owned(mem', k.blocks, k.owner, v)
    {
      assert Owned(mem, k.blocks, k.owner, v);
      assert k.owner[v] != u;
    }
  }

  lemma StoreKeeps(mem: Memory, base: nat, k: Books, u: nat, h: Header)
    requires Good(mem, base, k)
    requires u in k.owner && k.owner[u] != u
    ensures Good(mem[u := h], base, k)
  {
    Unpack(mem, base, k);
    var mem' := mem[u := h];
    StoreTiling(mem, base, k, u, h);
    forall i | 0 <= i < |k.fl|
      ensures k.fl[i] != u && LinkAt(mem', k.fl, i)
    {
      assert LinkAt(mem, k.fl, i);
    }
    forall i | 0 <= i < |k.fl| - 1
      ensures Apart(mem', k.fl, i)
    {
      assert Apart(mem, k.fl, i) && LinkAt(mem', k.fl, i);
    }
    Pack(mem', base, k);
  }

  lemma KeptLiveTwice(m0: Memory, m1: Memory, m2: Memory, k0: Books, k1: Books, k2: Books)
    requires KeptLive(m0, m1, k0, k1) && KeptLive(m1, m2, k1, k2) && k0.live <= k1.live
    ensures KeptLive(m0, m2, k0, k2)
  {
  }

  /* ---- malloc's walk ---- */

  function Wrap(t: nat, n: nat): int {
    if t < n then t else t - n
  }

  // p is entry t, counted on round the circle from freep, which is entry f; what the walk has passed is too small.
  ghost predicate Walking(mem: Memory, fl: seq<nat>, freep: nat, nunits: nat, f: nat, t: nat, prevp: nat, p: nat) {
    var n := |fl|;
    && f < n && fl[f] == freep && f + 1 <= t <= f + n && p == fl[Wrap(t, n)] && prevp == fl[Wrap(t - 1, n)]
    && forall x | 0 <= x < n && (f < x < t || x + n < t) :: !Roomy(mem, fl, x, nunits)
  }

  // p is entry t round the circle from freep, entry f, and the first of those with nunits units.
  ghost predicate FirstFrom(mem: Memory, fl: seq<nat>, freep: nat, nunits: nat, p: nat, f: nat, t: nat) {
    && f < |fl| && fl[f] == freep && f < t <= f + |fl| && p == fl[Wrap(t, |fl|)] && p in mem && mem[p].size >= nunits
    && forall x | f < x < t && fl[Wrap(x, |fl|)] in mem :: mem[fl[Wrap(x, |fl|)]].size < nunits
  }

  // The block from which nunits units at a are taken is the first after freep that has them, and they are its last.
  ghost predicate FirstFit(mem: Memory, fl: seq<nat>, freep: nat, nunits: nat, a: nat) {
    exists p: nat, f: nat, t: nat ::
      FirstFrom(mem, fl, freep, nunits, p, f, t) && a == p + mem[p].size - nunits
  }

  lemma WalkIsFirst(mem: Memory, fl: seq<nat>, freep: nat, nunits: nat, f: nat, t: nat, prevp: nat, p: nat)
    requires Walking(mem, fl, freep, nunits, f, t, prevp, p) && p in mem && mem[p].size >= nunits > 0
    ensures FirstFit(mem, fl, freep, nunits, p + mem[p].size - nunits)
  {
    var n := |fl|;
    forall x | f < x < t && fl[Wrap(x, n)] in mem
      ensures mem[fl[Wrap(x, n)]].size < nunits
    {
      assert !Roomy(mem, fl, Wrap(x, n), nunits);
    }
    assert FirstFrom(mem, fl, freep, nunits, p, f, t);
  }

  lemma WalkFrom(mem: Memory, base: nat, k: Books, freep: nat, nunits: nat) returns (f: nat)
    requires Good(mem, base, k) && freep in k.fl
    ensures freep in mem && Walking(mem, k.fl, freep, nunits, f, f + 1, freep, mem[freep].ptr)
  {
    Unpack(mem, base, k);
    f :| 0 <= f < |k.fl| && k.fl[f] == freep;
    assert LinkAt(mem, k.fl, f);
  }

  lemma OnWalk(mem: Memory, base: nat, k: Books, freep: nat, nunits: nat, f: nat, t: nat, prevp: nat, p: nat)
    requires Good(mem, base, k) && Walking(mem, k.fl, freep, nunits, f, t, prevp, p)
    ensures p in mem
  {
    Unpack(mem, base, k);
    assert LinkAt(mem, k.fl, Wrap(t, |k.fl|));
  }

  lemma WalkOn(mem: Memory, base: nat, k: Books, freep: nat, nunits: nat, f: nat, t: nat, prevp: nat, p: nat)
    requires Good(mem, base, k) && Walking(mem, k.fl, freep, nunits, f, t, prevp, p)
    requires p in mem && mem[p].size < nunits && p != freep
    ensures Walking(mem, k.fl, freep, nunits, f, t + 1, p, mem[p].ptr)
  {
    Unpack(mem, base, k);
    assert LinkAt(mem, k.fl, Wrap(t, |k.fl|));
    assert !Roomy(mem, k.fl, Wrap(t, |k.fl|), nunits);
  }

  // Back at freep, the walk has seen every entry.
  lemma WalkedAround(mem: Memory, base: nat, k: Books, freep: nat, nunits: nat, f: nat, t: nat, prevp: nat, p: nat)
    requires Good(mem, base, k) && Walking(mem, k.fl, freep, nunits, f, t, prevp, p) && p in mem && mem[p].size < nunits
    requires p == freep
    ensures !HasSize(mem, k.fl, nunits)
  {
    Unpack(mem, base, k);
    assert Wrap(t, |k.fl|) == f;
    assert !Roomy(mem, k.fl, f, nunits);
  }

  lemma WalkFound(mem: Memory, base: nat, k: Books, freep: nat, nunits: nat, f: nat, t: nat, prevp: nat, p: nat)
    returns (i: nat)
    requires Good(mem, base, k) && Walking(mem, k.fl, freep, nunits, f, t, prevp, p) && p in mem
    requires mem[p].size >= nunits > 0
    ensures 1 <= i < |k.fl| && p == k.fl[i] && prevp == k.fl[i - 1] && HasSize(mem, k.fl, nunits)
  {
    Unpack(mem, base, k);
    i := Wrap(t, |k.fl|);
    assert Roomy(mem, k.fl, i, nunits);
  }

  class Heap {
    const base: nat
    var mem: Memory
    var freep: nat          // 0 before the first malloc
    ghost var k: Books

    ghost predicate Valid()
      reads this
    {
      && base > 0 && base in mem
      && (freep == 0 ==> k == Books([base], {}, {}, map[]))
      && (freep != 0 ==> Good(mem, base, k) && freep in k.fl)
    }

    // All units handed over by sbrk so far.
    ghost function Arena(): set<nat>
      reads this
    {
      k.owner.Keys
    }

    // A free block of at least n units exists.
    ghost predicate Fits(n: nat)
      reads this
    {
      freep != 0 && HasSize(mem, k.fl, n)
    }

    // A region sbrk may return: above base, and not handed out before.
    ghost predicate FromSbrk(r: nat, n: nat)
      reads this
    {
      r > base && forall u | r <= u < r + n :: u !in k.owner
    }

    constructor (base: nat, mem: Memory)
      requires base > 0 && base in mem
      ensures Valid() && this.base == base && freep == 0 && this.mem == mem
    {
      this.base, this.mem, freep := base, mem, 0;
      k := Books([base], {}, {}, map[]);
    }

    /** free's search: the list entry after which bp belongs, found from wherever freep is. */
    method Place(bp: nat) returns (p: nat, ghost i: nat)
      requires Valid() && freep != 0 && bp in k.live
      ensures Goes(k, i, bp) && p == k.fl[i] && p in mem
    {
      Unpack(mem, base, k);
      ghost var t := TargetOf(bp);
      p := freep;
      i :| 0 <= i < |k.fl| && k.fl[i] == freep;
      assert LinkAt(mem, k.fl, i);
      while !(bp > p && bp < mem[p].ptr)
        invariant 0 <= i < |k.fl| && p == k.fl[i] && LinkAt(mem, k.fl, i)
        decreases if i <= t then t - i else |k.fl| - i + t
      {
        if p >= mem[p].ptr && (bp > p || bp < mem[p].ptr) {
          break;
        }
        p := mem[p].ptr;
        i := if i + 1 < |k.fl| then i + 1 else 0;
        assert LinkAt(mem, k.fl, i);
      }
    }

    // The last entry below bp.
    lemma TargetOf(bp: nat) returns (t: nat)
      requires Valid() && freep != 0 && bp in k.live
      ensures Goes(k, t, bp)
    {
      Unpack(mem, base, k);
      assert Tile(mem, base, k.owner, bp);
      t := 0;
      while t + 1 < |k.fl| && k.fl[t + 1] < bp
        invariant t < |k.fl| && k.fl[t] < bp
      {
        t := t + 1;
      }
      assert t + 1 < |k.fl| ==> k.fl[t + 1] !in k.live;
    }

    /** free: the block leaves the live set and its units become free; no other caller's data
        or header changes. */
    method Free(ap: nat)
      requires Valid() && freep != 0 && ap > 0 && ap - 1 in k.live
      modifies this`mem, this`freep, this`k
      ensures Valid() && freep != 0
      ensures k.live == old(k.live) - {ap - 1} && Arena() == old(Arena())
      ensures KeptLive(old(mem), mem, old(k), k)
      ensures ap - 1 in old(mem) && Fits(old(mem[ap - 1].size))
    {
      var bp := ap - 1;
      ghost var i;
      var p;
      p, i := Place(bp);
      PlaceKnown(mem, base, k, i, bp);
      FreeAt(p, bp, i);
      OnCircle(mem, base, k, freep);
    }

    method FreeAt(p: nat, bp: nat, ghost i: nat)
      requires base > 0 && Good(mem, base, k) && bp in k.live && Goes(k, i, bp)
      requires k.fl[i] in mem && bp in mem && mem[k.fl[i]].ptr in mem && p == k.fl[i]
      modifies this`mem, this`freep, this`k
      ensures Good(mem, base, k) && freep in k.fl && freep == p
      ensures k.live == old(k.live) - {bp} && k.owner.Keys == old(k.owner.Keys)
      ensures KeptLive(old(mem), mem, old(k), k) && HasSize(mem, k.fl, old(mem[bp].size))
    {
      ghost var mem', k' := FreeAll(mem, base, k, i, bp);
      Splice(p, bp);
      k := k';
      assert mem == mem';
      freep := p;
    }

    /** The owner of a live block may write anything into its units after the header: the
        allocator does not depend on them. */
    method StoreData(u: nat, h: Header)
      requires Valid() && freep != 0 && u in k.owner && k.owner[u] in k.live && k.owner[u] != u
      modifies this`mem
      ensures Valid() && mem == old(mem)[u := h]
    {
      StoreKeeps(mem, base, k, u, h);
      mem := mem[u := h];
    }

    // umalloc.c:33-42.
    method Splice(p: nat, bp: nat)
      requires p in mem && bp in mem && mem[p].ptr in mem
      modifies this`mem
      ensures mem == FreedMem(old(mem), p, bp)
    {
      var q := mem[p].ptr;
      if bp + mem[bp].size == q {
        mem := mem[bp := Header(mem[q].ptr, mem[bp].size + mem[q].size)];
      } else {
        mem := mem[bp := Header(q, mem[bp].size)];
      }
      if p + mem[p].size == bp {
        mem := mem[p := Header(mem[bp].ptr, mem[p].size + mem[bp].size)];
      } else {
        mem := mem[p := Header(bp, mem[p].size)];
      }
    }

    /** morecore: sbrk hands over a region (or not), which becomes one more free block. */
    method Morecore(nu: nat, brk: Option<nat>) returns (ok: bool)
      requires Valid() && freep != 0
      requires brk.Some? ==> FromSbrk(brk.value, Grow(nu))
      modifies this`mem, this`freep, this`k
      ensures ok <==> brk.Some?
      ensures !ok ==> unchanged(this)
      ensures ok ==> Valid() && freep != 0 && k.live == old(k.live)
                     && Arena() == old(Arena()) + Region(brk.value, Grow(nu)).Keys
                     && KeptLive(old(mem), mem, old(k), k) && Fits(nu)
    {
      if brk.None? { return false; }
      var n, hp := Grow(nu), brk.value;
      ghost var mem0, k0 := mem, k;
      mem := mem + Zeroed(hp, n);
      mem := mem[hp := Header(mem[hp].ptr, n)];
      k := Books(k.fl, k.blocks + {hp}, k.live + {hp}, k.owner + Region(hp, n));
      SbrkStep(mem0, mem, base, k0, k, hp, n);
      Free(hp + 1);
      SmallerFits(mem, k.fl, n, nu);
      return true;
    }

    // malloc's first call: the list is just `base`, which points to itself.
    method Start()
      requires Valid() && freep == 0
      modifies this`mem, this`freep
      ensures Valid() && freep != 0 && mem == old(mem)[base := Header(base, 0)]
    {
      mem := mem[base := Header(base, 0)];
      freep := base;
      assert LinkAt(mem, k.fl, 0);
      Pack(mem, base, k);
    }

    // umalloc.c:75-85: the whole block, or its tail, goes to the caller.
    method Take(prevp: nat, p: nat, nunits: nat, ghost i: nat) returns (a: nat)
      requires Valid() && freep != 0 && 1 <= i < |k.fl| && p == k.fl[i] && prevp == k.fl[i - 1]
      requires p in mem && mem[p].size >= nunits > 0
      modifies this`mem, this`freep, this`k
      ensures Valid() && freep == prevp
      ensures a !in old(k.live) && k.live == old(k.live) + {a} && a in mem && mem[a].size == nunits
      ensures a == p + old(mem[p].size) - nunits
      ensures Arena() == old(Arena()) && KeptLive(old(mem), mem, old(k), k)
    {
      Unpack(mem, base, k);
      assert LinkAt(mem, k.fl, i - 1);
      if mem[p].size == nunits {
        a := TakeWhole(prevp, p, i);
      } else {
        a := TakeTail(p, nunits, i);
        OnCircle(mem, base, k, prevp);
        freep := prevp;
      }
    }

    method TakeWhole(prevp: nat, p: nat, ghost i: nat) returns (a: nat)
      requires Valid() && freep != 0 && 1 <= i < |k.fl| && p == k.fl[i] && prevp == k.fl[i - 1]
      requires p in mem && prevp in mem
      modifies this`mem, this`freep, this`k
      ensures Valid() && freep == prevp
      ensures a == p && a !in old(k.live) && k.live == old(k.live) + {a} && a in mem && mem[a].size == old(mem[p].size)
      ensures Arena() == old(Arena()) && KeptLive(old(mem), mem, old(k), k)
    {
      ghost var mem0, k0 := mem, k;
      ghost var fl' := MakeRemoves(k.fl, i);
      mem := mem[prevp := Header(mem[p].ptr, mem[prevp].size)];
      k := k.(fl := fl', live := k.live + {p});
      TakeAll(mem0, mem, base, k0, k, i);
      OnCircle(mem, base, k, prevp);
      freep := prevp;
      a := p;
    }

    method TakeTail(p: nat, nunits: nat, ghost i: nat) returns (a: nat)
      requires Valid() && freep != 0 && 1 <= i < |k.fl| && p == k.fl[i]
      requires p in mem && mem[p].size > nunits > 0
      modifies this`mem, this`k
      ensures Valid() && k.fl == old(k.fl) && a == p + old(mem[p].size) - nunits
      ensures a !in old(k.live) && k.live == old(k.live) + {a} && a in mem && mem[a].size == nunits
      ensures Arena() == old(Arena()) && KeptLive(old(mem), mem, old(k), k)
    {
      ghost var c := p + mem[p].size - nunits;
      ghost var mem', k' := CarveAll(mem, base, k, i, p, c, nunits);
      a := Carve(p, nunits);
      k := k';
      assert mem == mem';
    }

    // umalloc.c:79-81.
    method Carve(p: nat, nunits: nat) returns (a: nat)
      requires p in mem && mem[p].size > nunits > 0 && p + mem[p].size - nunits in mem
      modifies this`mem
      ensures a == p + old(mem[p].size) - nunits && mem == Carved(old(mem), p, nunits)
    {
      mem := mem[p := Header(mem[p].ptr, mem[p].size - nunits)];
      a := p + mem[p].size;
      mem := mem[a := Header(mem[a].ptr, nunits)];
    }

    // The walk has come to a block that is large enough; mem0 and k0 were the heap when it began.
    method TakeFound(prevp: nat, p: nat, nunits: nat, ghost f: nat, ghost t: nat, ghost mem0: Memory, ghost k0: Books)
      returns (a: nat)
      requires Valid() && freep != 0 && Walking(mem, k.fl, freep, nunits, f, t, prevp, p) && p in mem
      requires mem[p].size >= nunits > 0 && KeptLive(mem0, mem, k0, k) && k.live == k0.live
      modifies this`mem, this`freep, this`k
      ensures Valid() && freep != 0 && a !in old(k.live) && k.live == old(k.live) + {a}
      ensures a in mem && mem[a].size == nunits && FirstFit(old(mem), old(k.fl), old(freep), nunits, a)
      ensures old(HasSize(mem, k.fl, nunits)) && Arena() == old(Arena()) && KeptLive(mem0, mem, k0, k)
    {
      ghost var m1, k1 := mem, k;
      ghost var i := WalkFound(mem, base, k, freep, nunits, f, t, prevp, p);
      WalkIsFirst(mem, k.fl, freep, nunits, f, t, prevp, p);
      a := Take(prevp, p, nunits, i);
      KeptLiveTwice(mem0, m1, mem, k0, k1, k);
    }

    /** malloc's loop: nunits units that no live block had, taken from the free list, which is extended by at most
        one sbrk; null exactly when nothing fits and sbrk refuses.  It ends although morecore starts the walk over
        and may have merged the new units into a block the walk had passed. */
    method AllocUnits(nunits: nat, brk: Option<nat>) returns (ok: bool, a: nat, ghost calls: nat)
      requires Valid() && freep != 0 && nunits > 0
      requires brk.Some? ==> FromSbrk(brk.value, Grow(nunits))
      modifies this`mem, this`freep, this`k
      ensures Valid() && freep != 0
      ensures ok <==> old(Fits(nunits)) || brk.Some?
      ensures calls == if old(Fits(nunits)) then 0 else 1
      ensures !ok ==> k.live == old(k.live)
      ensures ok ==> a !in old(k.live) && k.live == old(k.live) + {a} && a in mem && mem[a].size == nunits
      ensures old(Fits(nunits)) ==> FirstFit(old(mem), old(k.fl), old(freep), nunits, a)
      ensures Arena() == old(Arena()) + Grown(old(Fits(nunits)), brk, nunits)
      ensures KeptLive(old(mem), mem, old(k), k)
    {
      var prevp := freep;
      ghost var f: nat := WalkFrom(mem, base, k, freep, nunits);
      ghost var t: nat := f + 1;
      var p := mem[prevp].ptr;
      calls := 0;
      KeptSame(mem, base, k);
      while true
        invariant Valid() && freep != 0 && Walking(mem, k.fl, freep, nunits, f, t, prevp, p)
        invariant calls <= 1 && k.live == old(k.live) && KeptLive(old(mem), mem, old(k), k)
        invariant calls == 0 ==> mem == old(mem) && k == old(k) && freep == old(freep)
        invariant calls == 1 ==> brk.Some? && !old(Fits(nunits)) && HasSize(mem, k.fl, nunits)
        invariant calls == 1 ==> Arena() == old(Arena()) + Region(brk.value, Grow(nunits)).Keys
        decreases 1 - calls, f + |k.fl| - t
      {
        OnWalk(mem, base, k, freep, nunits, f, t, prevp, p);
        if mem[p].size >= nunits {
          a := TakeFound(prevp, p, nunits, f, t, old(mem), old(k));
          return true, a, calls;
        }
        if p == freep {
          WalkedAround(mem, base, k, freep, nunits, f, t, prevp, p);
          var more := Morecore(nunits, brk);
          calls := calls + 1;
          if !more { return false, 0, calls; }
          p := freep;
          f := WalkFrom(mem, base, k, freep, nunits);
          t := f;
        } else {
          WalkOn(mem, base, k, freep, nunits, f, t, prevp, p);
        }
        prevp, p, t := p, mem[p].ptr, t + 1;
      }
    }

    // malloc on a byte count: the first call sets up the list, and the caller gets the
    // address after the header.
    method Malloc(nbytes: nat, brk: Option<nat>) returns (r: Option<nat>, ghost a: nat)
      requires Valid() && nbytes < TWO32
      requires brk.Some? ==> FromSbrk(brk.value, Grow(UnitsFor(nbytes)))
      modifies this`mem, this`freep, this`k
      ensures Valid() && freep != 0
      ensures r == if old(Fits(UnitsFor(nbytes))) || brk.Some? then Some(a + 1) else None
      ensures r.None? ==> k.live == old(k.live)
      ensures r.Some? ==> a !in old(k.live) && k.live == old(k.live) + {a} && a in mem
      ensures r.Some? ==> mem[a].size == UnitsFor(nbytes)
      ensures Arena() == old(Arena()) + Grown(old(Fits(UnitsFor(nbytes))), brk, UnitsFor(nbytes))
      ensures KeptLive(old(mem), mem, old(k), k)
    {
      var nunits := UnitsFor(nbytes);
      if freep == 0 {
        Start();
        assert !HasSize(mem, k.fl, nunits);
      }
      var ok, header, calls := AllocUnits(nunits, brk);
      a := header;
      return if ok then Some(header + 1) else None, a;
    }
  }

  // The units sbrk adds during one malloc.
  ghost function Grown(fits: bool, brk: Option<nat>, nunits: nat): set<nat> {
    if fits || brk.None? then {} else Region(brk.value, Grow(nunits)).Keys
  }

  lemma KeptSame(mem: Memory, base: nat, k: Books)
    requires Good(mem, base, k)
    ensures KeptLive(mem, mem, k, k)
  {
    Unpack(mem, base, k);
    assert forall u | u in k.owner :: Owned(mem, k.blocks, k.owner, u);
  }

  // The block at position i goes to the caller whole.
  lemma TakeHeap(mem: Memory, mem': Memory, base: nat, k: Books, fl': seq<nat>, i: nat)
    requires FreeList.Heap(mem, base, k) && Coalesced(mem, k.fl) && Removes(k.fl, fl', i) && k.fl[i] in mem
    requires k.fl[i - 1] in mem
    requires mem' == mem[k.fl[i - 1] := Header(mem[k.fl[i]].ptr, mem[k.fl[i - 1]].size)]
    ensures FreeList.Heap(mem', base, k.(fl := fl', live := k.live + {k.fl[i]})) && Coalesced(mem', fl')
    ensures k.fl[i - 1] in fl'
  {
    TakeStep(mem, mem', base, k, fl', i);
    forall m | 0 <= m < |fl'| - 1
      ensures Apart(mem', fl', m)
    {
      TakeApart(mem, mem', base, k, fl', i, m);
    }
    assert fl'[i - 1] == k.fl[i - 1];
  }

  lemma TakeLive(mem: Memory, mem': Memory, base: nat, k: Books, k': Books, i: nat)
    requires FreeList.Heap(mem, base, k) && 1 <= i < |k.fl| && k.fl[i] in mem && k.fl[i - 1] in mem
    requires mem' == mem[k.fl[i - 1] := Header(mem[k.fl[i]].ptr, mem[k.fl[i - 1]].size)]
    requires k'.owner == k.owner && k'.live == k.live + {k.fl[i]}
    ensures k.fl[i] !in k.live && KeptLive(mem, mem', k, k')
  {
    if i > 1 { assert Tile(mem, base, k.owner, k.fl[i - 1]) && k.owner[k.fl[i - 1]] == k.fl[i - 1]; }
    forall u | u in k.owner && k.owner[u] in k.live
      ensures u in mem && mem'[u] == mem[u]
    {
      assert Owned(mem, k.blocks, k.owner, u);
    }
  }

  lemma TakeAll(mem: Memory, mem': Memory, base: nat, k: Books, k': Books, i: nat)
    requires Good(mem, base, k) && Removes(k.fl, k'.fl, i) && k.fl[i] in mem && k.fl[i - 1] in mem
    requires mem' == mem[k.fl[i - 1] := Header(mem[k.fl[i]].ptr, mem[k.fl[i - 1]].size)]
    requires k' == k.(fl := k'.fl, live := k.live + {k.fl[i]})
    ensures Good(mem', base, k') && k.fl[i - 1] in k'.fl
    ensures k.fl[i] !in k.live && KeptLive(mem, mem', k, k')
  {
    Unpack(mem, base, k);
    TakeHeap(mem, mem', base, k, k'.fl, i);
    TakeLive(mem, mem', base, k, k', i);
    Pack(mem', base, k');
  }

  lemma CarveCoalesced(mem: Memory, base: nat, k: Books, i: nat, p: nat, c: nat, n: nat)
    requires FreeList.Heap(mem, base, k) && Coalesced(mem, k.fl) && 1 <= i < |k.fl| && p == k.fl[i] && p in mem
    requires 0 < n < mem[p].size && c == p + mem[p].size - n && c in mem && c !in k.fl
    ensures Coalesced(Carved(mem, p, n), k.fl)
  {
    forall m | 0 <= m < |k.fl| - 1
      ensures Apart(Carved(mem, p, n), k.fl, m)
    {
      CarveApart(mem, base, k, i, p, c, n, m);
    }
  }

  lemma CarveKeepsLive(mem: Memory, base: nat, k: Books, i: nat, p: nat, c: nat, n: nat)
    requires FreeList.Heap(mem, base, k) && 1 <= i < |k.fl| && p == k.fl[i] && p in mem
    requires 0 < n < mem[p].size && c == p + mem[p].size - n && c in mem && c !in k.blocks
    ensures KeptLive(mem, Carved(mem, p, n), k, CarvedBooks(k, c, n))
  {
    assert Tile(mem, base, k.owner, p);
    var mem', owner' := Carved(mem, p, n), CarvedBooks(k, c, n).owner;
    assert k.owner[c] == p && k.owner[p] == p;
    forall u | u in k.owner && k.owner[u] in k.live + {c}
      ensures k.owner[u] in k.live && u in mem && mem'[u] == mem[u] && owner'[u] == k.owner[u]
    {
      assert Owned(mem, k.blocks, k.owner, u);
    }
  }

  lemma CarvedAt(mem: Memory, p: nat, c: nat, n: nat)
    requires p in mem && c in mem && 0 < n < mem[p].size && c == p + mem[p].size - n
    ensures c in Carved(mem, p, n) && Carved(mem, p, n)[c].size == n && Carved(mem, p, n).Keys == mem.Keys
  {
    var m1 := mem[p := Header(mem[p].ptr, mem[p].size - n)];
    assert Carved(mem, p, n) == m1[c := Header(mem[c].ptr, n)];
  }

  lemma CarveAll(mem: Memory, base: nat, k: Books, i: nat, p: nat, c: nat, n: nat) returns (mem': Memory, k': Books)
    requires Good(mem, base, k) && 1 <= i < |k.fl| && p == k.fl[i] && p in mem
    requires 0 < n < mem[p].size && c == p + mem[p].size - n
    ensures c in mem && mem' == Carved(mem, p, n) && c in mem' && mem'[c].size == n
    ensures Good(mem', base, k') && KeptLive(mem, mem', k, k')
    ensures k'.fl == k.fl && k'.live == k.live + {c} && k'.owner.Keys == k.owner.Keys && c !in k.live
    ensures mem'.Keys == mem.Keys
  {
    Unpack(mem, base, k);
    CarveStep(mem, base, k, i, p, c, n);
    CarveCoalesced(mem, base, k, i, p, c, n);
    CarveKeepsLive(mem, base, k, i, p, c, n);
    CarvedAt(mem, p, c, n);
    mem', k' := Carved(mem, p, n), CarvedBooks(k, c, n);
    Pack(mem', base, k');
  }

  lemma FreeAll(mem: Memory, base: nat, k: Books, i: nat, bp: nat) returns (mem': Memory, k': Books)
    requires Good(mem, base, k) && bp in k.live && Goes(k, i, bp)
    requires k.fl[i] in mem && bp in mem && mem[k.fl[i]].ptr in mem
    ensures mem' == FreedMem(mem, k.fl[i], bp)
    ensures Good(mem', base, k') && KeptLive(mem, mem', k, k')
    ensures k'.live == k.live - {bp} && k'.owner.Keys == k.owner.Keys && k.fl[i] in k'.fl
    ensures HasSize(mem', k'.fl, mem[bp].size)
  {
    Unpack(mem, base, k);
    mem' := FreedMem(mem, k.fl[i], bp);
    k' := FreeKeeps(mem, base, k, i, bp);
    FreeKeepsLive(mem, mem', base, k, k', i, bp);
    Pack(mem', base, k');
  }
}
