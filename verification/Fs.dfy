/** The free bit map (fs.c:53-96): one bit per disk block, BPB bits per bitmap block. */
module Bitmap {
  import opened Options

  const BSIZE: nat := 512
  const BPB: nat := 8 * BSIZE

  type BitBlock = s: seq<bv8> | |s| == BSIZE witness seq(BSIZE, _ => 0)

  // 1 << (bi % 8)
  function Mask(k: nat): bv8
    requires k < 8
  {
    match k
    case 0 => 1 case 1 => 2 case 2 => 4 case 3 => 8
    case 4 => 16 case 5 => 32 case 6 => 64 case 7 => 128
  }

  predicate Bit(x: bv8, k: nat)
    requires k < 8
  {
    x & Mask(k) != 0
  }

  // Setting or clearing one bit of a byte leaves the other seven alone.
  lemma BitOps(x: bv8, k: nat, j: nat)
    requires k < 8 && j < 8
    ensures Bit(x | Mask(k), j) <==> j == k || Bit(x, j)
    ensures Bit(x & !Mask(k), j) <==> j != k && Bit(x, j)
  {
  }

  predicate Covers(bm: seq<BitBlock>, size: nat) {
    size <= |bm| * BPB
  }

  // Block b is marked in use.
  predicate Used(bm: seq<BitBlock>, b: nat)
    requires b < |bm| * BPB
  {
    Bit(bm[b / BPB][b % BPB / 8], b % BPB % 8)
  }

  lemma MaskIs(k: nat)
    requires k < 8
    ensures Mask(k) == (1 as bv8) << k
  {
  }

  lemma BitPlace(b: nat)
    ensures b % BPB / 8 == b / 8 % 512 && b % BPB % 8 == b % 8
  {
    var q, i := b / BPB, b % BPB;
    assert b == 8 * (512 * q) + i;
    assert b / 8 == 512 * q + i / 8;
  }

  /** The bit of block b is number b mod 8 of byte b / 8 of the map, which goes on from one bitmap block to the next. */
  lemma UsedIs(bm: seq<BitBlock>, b: nat)
    requires b < |bm| * 4096
    ensures Used(bm, b) <==> bm[b / 4096][b / 8 % 512] & ((1 as bv8) << (b % 8)) != 0
  {
    BitPlace(b);
    MaskIs(b % 8);
  }

  function Put(bm: seq<BitBlock>, b: nat, x: bv8): seq<BitBlock>
    requires b < |bm| * BPB
  {
    bm[b / BPB := bm[b / BPB][b % BPB / 8 := x]]
  }

  function ByteOf(bm: seq<BitBlock>, b: nat): bv8
    requires b < |bm| * BPB
  {
    bm[b / BPB][b % BPB / 8]
  }

  lemma SamePlace(b: nat, c: nat)
    requires b / BPB == c / BPB && b % BPB / 8 == c % BPB / 8 && b % BPB % 8 == c % BPB % 8
    ensures b == c
  {
    var bi, ci := b % BPB, c % BPB;
    assert b == b / BPB * BPB + bi && c == c / BPB * BPB + ci;
    assert bi == bi / 8 * 8 + bi % 8 && ci == ci / 8 * 8 + ci % 8;
  }

  lemma PutUsed(bm: seq<BitBlock>, b: nat, x: bv8, c: nat)
    requires b < |bm| * BPB && c < |bm| * BPB
    requires forall j | 0 <= j < 8 && j != b % BPB % 8 :: Bit(x, j) == Bit(ByteOf(bm, b), j)
    ensures Used(Put(bm, b, x), c) <==> if c == b then Bit(x, b % BPB % 8) else Used(bm, c)
  {
    if b / BPB == c / BPB && b % BPB / 8 == c % BPB / 8 && c != b {
      if b % BPB % 8 == c % BPB % 8 { SamePlace(b, c); }
      assert Bit(x, c % BPB % 8) == Bit(ByteOf(bm, b), c % BPB % 8);
    }
  }

  // The first n blocks are marked, or all of them.
  ghost predicate Full(bm: seq<BitBlock>, size: nat, n: nat)
    requires Covers(bm, size)
  {
    forall c | 0 <= c < n && c < size :: Used(bm, c)
  }

  /** balloc's search and marking: the first free block is marked in use and no other bit
      changes; None is the panic "balloc: out of blocks". */
  method Alloc(bm: seq<BitBlock>, size: nat) returns (r: Option<nat>, bm': seq<BitBlock>)
    requires Covers(bm, size)
    ensures r.None? <==> forall b | 0 <= b < size :: Used(bm, b)
    ensures r.None? ==> bm' == bm
    ensures r.Some? ==> r.value < size && !Used(bm, r.value) && forall b | 0 <= b < r.value :: Used(bm, b)
    ensures |bm'| == |bm|
    ensures r.Some? ==> forall b | 0 <= b < |bm| * BPB :: Used(bm', b) <==> b == r.value || Used(bm, b)
  {
    var b := 0;
    while b < size
      invariant 0 <= b && Full(bm, size, b)
    {
      var bi := 0;
      while bi < BPB && b + bi < size
        invariant 0 <= bi <= BPB && Full(bm, size, b + bi)
      {
        if !Used(bm, b + bi) {
          bm' := Put(bm, b + bi, ByteOf(bm, b + bi) | Mask((b + bi) % BPB % 8));
          Marked(bm, b + bi);
          return Some(b + bi), bm';
        }
        bi := bi + 1;
      }
      b := b + BPB;
    }
    return None, bm;
  }

  lemma Marked(bm: seq<BitBlock>, b: nat)
    requires b < |bm| * BPB
    ensures forall c | 0 <= c < |bm| * BPB ::
              Used(Put(bm, b, ByteOf(bm, b) | Mask(b % BPB % 8)), c) <==> c == b || Used(bm, c)
  {
    forall c | 0 <= c < |bm| * BPB
      ensures Used(Put(bm, b, ByteOf(bm, b) | Mask(b % BPB % 8)), c) <==> c == b || Used(bm, c)
    {
      forall j | 0 <= j < 8
        ensures Bit(ByteOf(bm, b) | Mask(b % BPB % 8), j) <==> j == b % BPB % 8 || Bit(ByteOf(bm, b), j)
      {
        BitOps(ByteOf(bm, b), b % BPB % 8, j);
      }
      PutUsed(bm, b, ByteOf(bm, b) | Mask(b % BPB % 8), c);
    }
  }

  // How many of the first n blocks are not marked.
  ghost function ClearBits(bm: seq<BitBlock>, n: nat): nat
    requires Covers(bm, n)
  {
    if n == 0 then 0 else ClearBits(bm, n - 1) + if Used(bm, n - 1) then 0 else 1
  }

  lemma {:induction false} NoClearBits(bm: seq<BitBlock>, n: nat)
    requires Covers(bm, n)
    ensures ClearBits(bm, n) == 0 <==> forall b | 0 <= b < n :: Used(bm, b)
  {
    if n > 0 { NoClearBits(bm, n - 1); }
  }

  // Marking block b.
  lemma {:induction false} OneLessClear(bm: seq<BitBlock>, bm': seq<BitBlock>, n: nat, b: nat)
    requires Covers(bm, n) && Covers(bm', n) && (b < n ==> !Used(bm, b))
    requires forall c | 0 <= c < n :: Used(bm', c) <==> c == b || Used(bm, c)
    ensures ClearBits(bm', n) == ClearBits(bm, n) - if b < n then 1 else 0
  {
    if n > 0 { OneLessClear(bm, bm', n - 1, b); }
  }

  /** mkfs's balloc: starting from an empty bitmap, exactly the first `used` blocks end up marked. */
  method MarkFirst(n: nat, used: nat) returns (bm: seq<BitBlock>)
    requires used <= n * BPB
    ensures |bm| == n && forall b | 0 <= b < |bm| * BPB :: Used(bm, b) <==> b < used
  {
    bm := seq(n, _ => seq(BSIZE, _ => 0));
    var i := 0;
    while i < used
      invariant 0 <= i <= used && |bm| == n
      invariant forall b | 0 <= b < |bm| * BPB :: Used(bm, b) <==> b < i
    {
      Marked(bm, i);
      var bm' := Put(bm, i, ByteOf(bm, i) | Mask(i % BPB % 8));
      assert forall b | 0 <= b < |bm| * BPB :: Used(bm', b) <==> b == i || Used(bm, b);
      bm, i := bm', i + 1;
    }
  }

  /** bfree on the bitmap: false is the panic "freeing free block". */
  method Release(bm: seq<BitBlock>, b: nat) returns (ok: bool, bm': seq<BitBlock>)
    requires b < |bm| * BPB
    ensures ok <==> Used(bm, b)
    ensures !ok ==> bm' == bm
    ensures |bm'| == |bm|
    ensures ok ==> forall c | 0 <= c < |bm| * BPB :: Used(bm', c) <==> c != b && Used(bm, c)
  {
    if !Used(bm, b) {
      return false, bm;
    }
    bm' := Put(bm, b, ByteOf(bm, b) & !Mask(b % BPB % 8));
    Cleared(bm, b);
    return true, bm';
  }

  lemma Cleared(bm: seq<BitBlock>, b: nat)
    requires b < |bm| * BPB
    ensures forall c | 0 <= c < |bm| * BPB ::
              Used(Put(bm, b, ByteOf(bm, b) & !Mask(b % BPB % 8)), c) <==> c != b && Used(bm, c)
  {
    forall c | 0 <= c < |bm| * BPB
      ensures Used(Put(bm, b, ByteOf(bm, b) & !Mask(b % BPB % 8)), c) <==> c != b && Used(bm, c)
    {
      forall j | 0 <= j < 8
        ensures Bit(ByteOf(bm, b) & !Mask(b % BPB % 8), j) <==> j != b % BPB % 8 && Bit(ByteOf(bm, b), j)
      {
        BitOps(ByteOf(bm, b), b % BPB % 8, j);
      }
      PutUsed(bm, b, ByteOf(bm, b) & !Mask(b % BPB % 8), c);
    }
  }
}

/** Inode contents (fs.c:344-497): direct and indirect blocks, and who owns which disk block.

    A slot of an inode is a place that can hold a block number: slots 0 to 11 are the direct
    blocks, slot 12 the table of indirect blocks, slot 13 + j entry j of that table. */
module Blocks {
  import opened Bitmap

  const NDIRECT: nat := 12
  const NINDIRECT: nat := BSIZE / 4
  const MAXFILE: nat := NDIRECT + NINDIRECT
  const NSLOTS: nat := NDIRECT + 1 + NINDIRECT

  type Byte = x: int | 0 <= x < 256
  type Data = s: seq<Byte> | |s| == BSIZE witness seq(BSIZE, _ => 0)

  // The uint at index j of a block of words, least significant byte first.
  function Word(d: Data, j: nat): (w: nat)
    requires j < NINDIRECT
  {
    (d[4 * j] as int) + 0x100 * (d[4 * j + 1] as int) + 0x1_0000 * (d[4 * j + 2] as int)
        + 0x100_0000 * (d[4 * j + 3] as int)
  }

  function PutWord(d: Data, j: nat, w: nat): Data
    requires j < NINDIRECT && w < 0x1_0000_0000
  {
    var low := d[4 * j := w % 0x100][4 * j + 1 := w / 0x100 % 0x100];
    low[4 * j + 2 := w / 0x1_0000 % 0x100][4 * j + 3 := w / 0x100_0000]
  }

  lemma Bytes(w: nat)
    requires w < 0x1_0000_0000
    ensures w == w % 0x100 + 0x100 * (w / 0x100 % 0x100) + 0x1_0000 * (w / 0x1_0000 % 0x100)
        + 0x100_0000 * (w / 0x100_0000)
  {
    var a, b := w / 0x100, w / 0x1_0000;
    assert a == 0x100 * (a / 0x100) + a % 0x100 && a / 0x100 == b;
    assert b == 0x100 * (b / 0x100) + b % 0x100 && b / 0x100 == w / 0x100_0000;
  }

  lemma WordRoundTrip(d: Data, j: nat, w: nat, k: nat)
    requires j < NINDIRECT && k < NINDIRECT && w < 0x1_0000_0000
    ensures Word(PutWord(d, j, w), k) == if k == j then w else Word(d, k)
  {
    Bytes(w);
    var d' := PutWord(d, j, w);
    if k != j {
      assert d'[4 * k] == d[4 * k] && d'[4 * k + 1] == d[4 * k + 1] && d'[4 * k + 2] == d[4 * k + 2]
          && d'[4 * k + 3] == d[4 * k + 3];
    } else {
      assert d'[4 * j] == w % 0x100 && d'[4 * j + 1] == w / 0x100 % 0x100;
      assert d'[4 * j + 2] == w / 0x1_0000 % 0x100 && d'[4 * j + 3] == w / 0x100_0000;
    }
  }

  datatype Inode = Inode(typ: int, nlink: int, size: nat, addrs: seq<nat>)

  datatype Owner = Free | Reserved | Fresh | Slot(inum: nat, s: nat)

  type Disk = map<nat, Data>

  // The disk as the file layer sees it; `inodes` are the in-memory inodes.
  datatype St = St(size: nat, bitmap: seq<BitBlock>, data: Disk, inodes: map<nat, Inode>)

  ghost predicate InodeOk(data: Disk, ip: Inode) {
    |ip.addrs| == NDIRECT + 1 && (ip.addrs[NDIRECT] != 0 ==> ip.addrs[NDIRECT] in data)
  }

  // The block number in slot s, 0 if there is none.
  function Addr(data: Disk, ip: Inode, s: nat): nat
    requires InodeOk(data, ip) && s < NSLOTS
  {
    if s <= NDIRECT then ip.addrs[s]
    else if ip.addrs[NDIRECT] == 0 then 0
    else Word(data[ip.addrs[NDIRECT]], s - NDIRECT - 1)
  }

  ghost predicate SlotOk(st: St, owner: map<nat, Owner>, i: nat, s: nat)
    requires i in st.inodes && InodeOk(st.data, st.inodes[i]) && s < NSLOTS
  {
    var a := Addr(st.data, st.inodes[i], s);
    a != 0 ==> a < st.size && a in owner && owner[a] == Slot(i, s)
  }

  ghost predicate BlockOk(st: St, owner: map<nat, Owner>, b: nat)
    requires b < st.size && Covers(st.bitmap, st.size)
  {
    && b in st.data && b in owner
    && (owner[b].Free? <==> !Used(st.bitmap, b))
    && match owner[b]
       case Slot(i, s) => b != 0 && i in st.inodes && InodeOk(st.data, st.inodes[i]) && s < NSLOTS
           && Addr(st.data, st.inodes[i], s) == b
       case _ => true
  }

  /** The set bits are the reserved blocks, blocks just allocated, and the disjoint union of the
      blocks in the slots of all inodes.  While inode t is being truncated, the slots in `gone`
      still hold block numbers that have already been given back. */
  ghost predicate Inv(st: St, owner: map<nat, Owner>, t: nat, gone: set<nat>) {
    && 0 < st.size <= 0x1_0000_0000 && Covers(st.bitmap, st.size)
    && (forall i | i in st.inodes :: InodeOk(st.data, st.inodes[i]))
    && (forall i, s | i in st.inodes && 0 <= s < NSLOTS && !(i == t && s in gone) :: SlotOk(st, owner, i, s))
    && (forall b | 0 <= b < st.size :: BlockOk(st, owner, b))
    && 0 in owner && owner[0] == Reserved
  }

  datatype Aspect = Slots | Bits

  ghost predicate Part(x: Aspect, st: St, owner: map<nat, Owner>, t: nat, gone: set<nat>) {
    match x
    case Slots =>
      && (forall i | i in st.inodes :: InodeOk(st.data, st.inodes[i]))
      && forall i, s | i in st.inodes && 0 <= s < NSLOTS && !(i == t && s in gone) :: SlotOk(st, owner, i, s)
    case Bits => Covers(st.bitmap, st.size) && forall b | 0 <= b < st.size :: BlockOk(st, owner, b)
  }

  // The same invariant with its two large clauses as aspects.
  ghost predicate Good(st: St, owner: map<nat, Owner>, t: nat, gone: set<nat>) {
    && 0 < st.size <= 0x1_0000_0000 && Covers(st.bitmap, st.size)
    && (forall i | i in st.inodes :: InodeOk(st.data, st.inodes[i]))
    && 0 in owner && owner[0] == Reserved
    && forall x: Aspect :: Part(x, st, owner, t, gone)
  }

  lemma Unpack(st: St, owner: map<nat, Owner>, t: nat, gone: set<nat>)
    requires Good(st, owner, t, gone)
    ensures Inv(st, owner, t, gone)
  {
    assert Part(Slots, st, owner, t, gone) && Part(Bits, st, owner, t, gone);
  }

  lemma Pack(st: St, owner: map<nat, Owner>, t: nat, gone: set<nat>)
    requires Inv(st, owner, t, gone)
    ensures Good(st, owner, t, gone)
  {
  }

  ghost predicate Holds(st: St, i: nat, s: nat, b: nat) {
    i in st.inodes && InodeOk(st.data, st.inodes[i]) && s < NSLOTS && Addr(st.data, st.inodes[i], s) == b
  }

  // No block is allocated without being in a slot.
  ghost predicate NoFresh(owner: map<nat, Owner>) {
    forall b | b in owner :: owner[b] != Fresh
  }

  /** Between operations a bit is set if and only if the block is reserved or some inode's slot holds it. */
  lemma UsedIffOwned(st: St, owner: map<nat, Owner>, b: nat)
    requires Inv(st, owner, 0, {}) && NoFresh(owner) && 0 < b < st.size
    ensures b in owner && (Used(st.bitmap, b) <==> owner[b] == Reserved || exists i, s :: Holds(st, i, s, b))
  {
    assert BlockOk(st, owner, b);
    if owner[b].Slot? {
      assert Holds(st, owner[b].inum, owner[b].s, b);
    }
    if i, s :| Holds(st, i, s, b) {
      assert SlotOk(st, owner, i, s);
    }
  }

  /** No block is in two slots. */
  lemma OneSlotPerBlock(st: St, owner: map<nat, Owner>, i: nat, s: nat, j: nat, u: nat, b: nat)
    requires Inv(st, owner, 0, {}) && b != 0 && Holds(st, i, s, b) && Holds(st, j, u, b)
    ensures i == j && s == u
  {
    assert SlotOk(st, owner, i, s) && SlotOk(st, owner, j, u);
  }

  // The numbers below n.
  function Low(n: nat): (r: set<nat>)
    ensures forall s :: s in r <==> 0 <= s < n
  {
    if n == 0 then {} else Low(n - 1) + {n - 1}
  }

  function Zeros(): (d: Data)
    ensures forall i | 0 <= i < BSIZE :: d[i] == 0
  {
    seq(BSIZE, _ => 0)
  }

  lemma ZeroWords(d: Data, j: nat)
    requires j < NINDIRECT && forall i | 0 <= i < BSIZE :: d[i] == 0
    ensures Word(d, j) == 0
  {
  }

  // Storing into a block that is no inode's table changes no slot.
  lemma SlotsKept(data: Disk, b: nat, d: Data, ip: Inode)
    requires InodeOk(data, ip) && ip.addrs[NDIRECT] != b
    ensures InodeOk(data[b := d], ip)
    ensures forall s | 0 <= s < NSLOTS :: Addr(data[b := d], ip, s) == Addr(data, ip, s)
  {
  }

  // A block that is not some inode's slot 12 is no inode's table.
  lemma NotTable(st: St, owner: map<nat, Owner>, b: nat, i: nat)
    requires Inv(st, owner, 0, {}) && 0 < b < st.size && b in owner && i in st.inodes
    requires owner[b] != Slot(i, NDIRECT)
    ensures st.inodes[i].addrs[NDIRECT] != b
  {
    assert SlotOk(st, owner, i, NDIRECT);
  }

  // balloc: mark, zero and hold the free block b.
  lemma AllocStep(st: St, st': St, owner: map<nat, Owner>, b: nat)
    requires Inv(st, owner, 0, {}) && b < st.size && !Used(st.bitmap, b)
    requires st' == st.(bitmap := st'.bitmap, data := st.data[b := Zeros()])
    requires Covers(st'.bitmap, st.size)
    requires forall c | 0 <= c < st.size :: Used(st'.bitmap, c) <==> c == b || Used(st.bitmap, c)
    ensures Inv(st', owner[b := Fresh], 0, {}) && b != 0
    ensures forall i, s | i in st.inodes && 0 <= s < NSLOTS ::
        Addr(st'.data, st.inodes[i], s) == Addr(st.data, st.inodes[i], s) != b
  {
    var owner' := owner[b := Fresh];
    assert BlockOk(st, owner, b) && BlockOk(st, owner, 0);
    forall i | i in st.inodes
      ensures InodeOk(st'.data, st.inodes[i])
      ensures forall s | 0 <= s < NSLOTS :: Addr(st'.data, st.inodes[i], s) == Addr(st.data, st.inodes[i], s) != b
    {
      NotTable(st, owner, b, i);
      SlotsKept(st.data, b, Zeros(), st.inodes[i]);
      forall s | 0 <= s < NSLOTS
        ensures Addr(st.data, st.inodes[i], s) != b
      {
        assert SlotOk(st, owner, i, s);
      }
    }
    forall i, s | i in st.inodes && 0 <= s < NSLOTS
      ensures SlotOk(st', owner', i, s)
    {
      assert SlotOk(st, owner, i, s);
    }
    forall c | 0 <= c < st.size
      ensures BlockOk(st', owner', c)
    {
      assert BlockOk(st, owner, c);
    }
  }

  // Overwriting a data block: no slot changes.
  lemma WriteStep(st: St, owner: map<nat, Owner>, b: nat, d: Data)
    requires Inv(st, owner, 0, {}) && b < st.size && b in owner && owner[b].Slot? && owner[b].s != NDIRECT
    ensures Inv(st.(data := st.data[b := d]), owner, 0, {})
    ensures forall i, s | i in st.inodes && 0 <= s < NSLOTS ::
        Addr(st.data[b := d], st.inodes[i], s) == Addr(st.data, st.inodes[i], s)
  {
    var st' := st.(data := st.data[b := d]);
    assert BlockOk(st, owner, b);
    forall i | i in st.inodes
      ensures InodeOk(st'.data, st.inodes[i])
      ensures forall s | 0 <= s < NSLOTS :: Addr(st'.data, st.inodes[i], s) == Addr(st.data, st.inodes[i], s)
    {
      NotTable(st, owner, b, i);
      SlotsKept(st.data, b, d, st.inodes[i]);
    }
    forall i, s | i in st.inodes && 0 <= s < NSLOTS
      ensures SlotOk(st', owner, i, s)
    {
      assert SlotOk(st, owner, i, s);
    }
    forall c | 0 <= c < st.size
      ensures BlockOk(st', owner, c)
    {
      assert BlockOk(st, owner, c);
    }
  }

  // st' is st with block r put into slot s of inode i.
  ghost predicate Attaches(st: St, st': St, i: nat, s: nat, r: nat)
    requires (forall j | j in st.inodes :: InodeOk(st.data, st.inodes[j])) && s < NSLOTS
  {
    && st'.size == st.size && st'.bitmap == st.bitmap && st'.inodes.Keys == st.inodes.Keys && i in st.inodes
    && st'.data.Keys == st.data.Keys
    && (forall j | j in st.inodes :: InodeOk(st'.data, st'.inodes[j]))
    && (forall j, u | j in st.inodes && 0 <= u < NSLOTS ::
          Addr(st'.data, st'.inodes[j], u) == if j == i && u == s then r else Addr(st.data, st.inodes[j], u))
  }

  lemma AttachStep(st: St, st': St, owner: map<nat, Owner>, i: nat, s: nat, r: nat)
    requires Inv(st, owner, 0, {}) && r < st.size && r in owner && owner[r] == Fresh && s < NSLOTS
    requires Attaches(st, st', i, s, r) && Addr(st.data, st.inodes[i], s) == 0
    ensures Inv(st', owner[r := Slot(i, s)], 0, {})
  {
    var owner' := owner[r := Slot(i, s)];
    assert BlockOk(st, owner, r);
    forall j, u | j in st'.inodes && 0 <= u < NSLOTS
      ensures SlotOk(st', owner', j, u)
    {
      assert SlotOk(st, owner, j, u);
    }
    forall c | 0 <= c < st'.size
      ensures BlockOk(st', owner', c)
    {
      assert BlockOk(st, owner, c);
    }
  }

  // ip->addrs[s] = r
  lemma AttachDirect(st: St, owner: map<nat, Owner>, i: nat, s: nat, r: nat)
    requires Inv(st, owner, 0, {}) && i in st.inodes && s <= NDIRECT && r < st.size && r in st.data
    requires st.inodes[i].addrs[s] == 0 && (s == NDIRECT ==> forall k | 0 <= k < BSIZE :: st.data[r][k] == 0)
    ensures var ip := st.inodes[i];
            Attaches(st, st.(inodes := st.inodes[i := ip.(addrs := ip.addrs[s := r])]), i, s, r)
  {
    var ip := st.inodes[i];
    var ip' := ip.(addrs := ip.addrs[s := r]);
    var st' := st.(inodes := st.inodes[i := ip']);
    forall u | 0 <= u < NSLOTS
      ensures Addr(st.data, ip', u) == if u == s then r else Addr(st.data, ip, u)
    {
      if u > NDIRECT && s == NDIRECT && r != 0 { ZeroWords(st.data[r], u - NDIRECT - 1); }
    }
    assert forall j | j in st.inodes :: InodeOk(st.data, st.inodes[j]);
  }

  // a[j] = r in the table block
  lemma AttachIndirect(st: St, owner: map<nat, Owner>, i: nat, j: nat, r: nat)
    requires Inv(st, owner, 0, {}) && i in st.inodes && j < NINDIRECT && r < st.size
    requires st.inodes[i].addrs[NDIRECT] != 0
    ensures var t := st.inodes[i].addrs[NDIRECT];
            t in st.data && Attaches(st, st.(data := st.data[t := PutWord(st.data[t], j, r)]), i, NDIRECT + 1 + j, r)
  {
    var t := st.inodes[i].addrs[NDIRECT];
    assert InodeOk(st.data, st.inodes[i]);
    var d := PutWord(st.data[t], j, r);
    var data' := st.data[t := d];
    assert SlotOk(st, owner, i, NDIRECT);
    forall k | k in st.inodes
      ensures InodeOk(data', st.inodes[k])
      ensures forall u | 0 <= u < NSLOTS ::
        Addr(data', st.inodes[k], u) == if k == i && u == NDIRECT + 1 + j then r else Addr(st.data, st.inodes[k], u)
    {
      if k == i {
        forall u | 0 <= u < NSLOTS
          ensures Addr(data', st.inodes[k], u) == if u == NDIRECT + 1 + j then r else Addr(st.data, st.inodes[k], u)
        {
          if u > NDIRECT { WordRoundTrip(st.data[t], j, r, u - NDIRECT - 1); }
        }
      } else {
        NotTable(st, owner, t, k);
        SlotsKept(st.data, t, d, st.inodes[k]);
      }
    }
  }

  /* ---- giving blocks back ---- */

  // owner is owner0 with the blocks in the slots `gone` of inode t free.
  ghost predicate Freed(owner0: map<nat, Owner>, owner: map<nat, Owner>, t: nat, gone: set<nat>) {
    && owner.Keys == owner0.Keys
    && forall b | b in owner0 ::
         owner[b] == if owner0[b].Slot? && owner0[b].inum == t && owner0[b].s in gone then Free else owner0[b]
  }

  // bfree of the block in slot s of inode t.
  lemma ReleaseStep(st: St, st': St, owner: map<nat, Owner>, t: nat, gone: set<nat>, s: nat, b: nat)
    requires Inv(st, owner, t, gone) && t in st.inodes && s < NSLOTS && s !in gone
    requires b == Addr(st.data, st.inodes[t], s) != 0 && b < st.size
    requires st' == st.(bitmap := st'.bitmap) && Covers(st'.bitmap, st.size)
    requires forall c | 0 <= c < st.size :: Used(st'.bitmap, c) <==> c != b && Used(st.bitmap, c)
    ensures b in owner && owner[b] == Slot(t, s) && Inv(st', owner[b := Free], t, gone + {s})
  {
    var owner', gone' := owner[b := Free], gone + {s};
    assert SlotOk(st, owner, t, s);
    forall i, u | i in st'.inodes && 0 <= u < NSLOTS && !(i == t && u in gone')
      ensures SlotOk(st', owner', i, u)
    {
      assert SlotOk(st, owner, i, u);
    }
    forall c | 0 <= c < st.size
      ensures BlockOk(st', owner', c)
    {
      assert BlockOk(st, owner, c);
    }
  }

  lemma ReleaseFreed(st: St, owner0: map<nat, Owner>, owner: map<nat, Owner>, t: nat, gone: set<nat>, s: nat, b: nat)
    requires Inv(st, owner, t, gone) && Freed(owner0, owner, t, gone) && t in st.inodes && s < NSLOTS && s !in gone
    requires b == Addr(st.data, st.inodes[t], s) != 0 && b < st.size && b in owner && owner[b] == Slot(t, s)
    requires forall c | c in owner :: c < st.size
    ensures Freed(owner0, owner[b := Free], t, gone + {s})
  {
    forall c | c in owner0 && owner0[c] == Slot(t, s)
      ensures c == b
    {
      assert BlockOk(st, owner, c);
    }
  }

  // An empty slot can be counted as given back.
  lemma SkipStep(st: St, owner0: map<nat, Owner>, owner: map<nat, Owner>, t: nat, gone: set<nat>, s: nat)
    requires Inv(st, owner, t, gone) && Freed(owner0, owner, t, gone) && t in st.inodes && s < NSLOTS
    requires s in gone || Addr(st.data, st.inodes[t], s) == 0
    requires forall c | c in owner :: c < st.size
    ensures Inv(st, owner, t, gone + {s}) && Freed(owner0, owner, t, gone + {s})
  {
    forall i, u | i in st.inodes && 0 <= u < NSLOTS && !(i == t && u in gone + {s})
      ensures SlotOk(st, owner, i, u)
    {
      assert !(i == t && u in gone);
    }
    forall c | c in owner0 && owner0[c] == Slot(t, s)
      ensures s in gone
    {
      assert BlockOk(st, owner, c);
    }
  }

  // Storing 0 in slots of inode t that have been given back.
  lemma ClearStep(st: St, st': St, owner: map<nat, Owner>, t: nat, gone: set<nat>)
    requires Inv(st, owner, t, gone) && t in st.inodes
    requires t in st'.inodes && st' == st.(inodes := st.inodes[t := st'.inodes[t]]) && InodeOk(st.data, st'.inodes[t])
    requires forall s | 0 <= s < NSLOTS && s !in gone ::
        Addr(st.data, st'.inodes[t], s) == Addr(st.data, st.inodes[t], s)
    requires forall b | b in owner && b < st.size && owner[b].Slot? && owner[b].inum == t :: owner[b].s !in gone
    ensures Inv(st', owner, t, gone)
  {
    forall i, u | i in st'.inodes && 0 <= u < NSLOTS && !(i == t && u in gone)
      ensures SlotOk(st', owner, i, u)
    {
      assert SlotOk(st, owner, i, u);
    }
    forall c | 0 <= c < st.size
      ensures BlockOk(st', owner, c)
    {
      assert BlockOk(st, owner, c);
    }
  }

  // All slots given back and cleared: an ordinary state again.
  lemma TruncDone(st: St, owner: map<nat, Owner>, t: nat, gone: set<nat>)
    requires Inv(st, owner, t, gone) && t in st.inodes
    requires forall s | 0 <= s < NSLOTS :: Addr(st.data, st.inodes[t], s) == 0
    ensures Inv(st, owner, 0, {})
  {
    forall i, u | i in st.inodes && 0 <= u < NSLOTS
      ensures SlotOk(st, owner, i, u)
    {
      if i == t && u in gone {
        assert Addr(st.data, st.inodes[t], u) == 0;
      } else {
        assert !(i == t && u in gone);
      }
    }
  }

  // No block of inode t is in use any more; every other block is as it was.
  ghost predicate FreedAll(owner0: map<nat, Owner>, owner: map<nat, Owner>, t: nat) {
    owner.Keys == owner0.Keys
    && forall b | b in owner0 :: owner[b] == if owner0[b].Slot? && owner0[b].inum == t then Free else owner0[b]
  }

  lemma FreedEverything(st: St, owner0: map<nat, Owner>, owner: map<nat, Owner>, t: nat, gone: set<nat>)
    requires Inv(st, owner, 0, {}) && Freed(owner0, owner, t, gone) && t in st.inodes
    requires forall s | 0 <= s < NSLOTS :: Addr(st.data, st.inodes[t], s) == 0
    requires forall b | b in owner :: b < st.size
    ensures FreedAll(owner0, owner, t)
  {
    forall b | b in owner && owner[b].Slot?
      ensures owner[b].inum != t
    {
      assert BlockOk(st, owner, b);
    }
  }

  lemma NothingGone(st: St, owner: map<nat, Owner>, t: nat)
    requires Inv(st, owner, 0, {})
    ensures Inv(st, owner, t, {}) && Freed(owner, owner, t, {})
  {
  }

  /* ---- file contents ---- */

  function SlotOf(bn: nat): (s: nat)
    requires bn < MAXFILE
    ensures s < NSLOTS && s != NDIRECT
  {
    if bn < NDIRECT then bn else bn + 1
  }

  // Byte k of the file, as one flat sequence; a block not allocated yet reads as zeros.
  function ByteAt(data: Disk, ip: Inode, k: nat): Byte
    requires InodeOk(data, ip) && k < MAXFILE * BSIZE
  {
    var a := Addr(data, ip, SlotOf(k / BSIZE));
    if a == 0 || a !in data then 0 else data[a][k % BSIZE]
  }

  /** Where byte k of a file is: in one of the twelve blocks the inode lists, or else in one of those listed, four bytes
      each with the lowest first, in the block it lists last. */
  lemma FlatFile(data: Disk, ip: Inode, k: nat)
    requires InodeOk(data, ip) && k < 140 * 512
    ensures |ip.addrs| == 13
    ensures k / 512 < 12 ==>
            var a := ip.addrs[k / 512]; ByteAt(data, ip, k) == if a == 0 || a !in data then 0 else data[a][k % 512]
    ensures k / 512 >= 12 && ip.addrs[12] == 0 ==> ByteAt(data, ip, k) == 0
    ensures k / 512 >= 12 && ip.addrs[12] != 0 ==>
            && ip.addrs[12] in data
            && var t, j := data[ip.addrs[12]], 4 * (k / 512 - 12);
            && |t| == 512
            && var a := (t[j] as int) + 0x100 * (t[j + 1] as int) + 0x1_0000 * (t[j + 2] as int)
                        + 0x100_0000 * (t[j + 3] as int);
            ByteAt(data, ip, k) == if a == 0 || a !in data then 0 else data[a][k % 512]
  {
  }

  ghost predicate SameFile(data: Disk, ip: Inode, data': Disk, ip': Inode) {
    InodeOk(data, ip) && InodeOk(data', ip') && ip'.size == ip.size
    && forall k | 0 <= k < MAXFILE * BSIZE :: ByteAt(data', ip', k) == ByteAt(data, ip, k)
  }

  // Every file has the contents it had.
  ghost predicate SameFiles(st: St, st': St) {
    st'.inodes.Keys == st.inodes.Keys && forall i | i in st.inodes ::
        SameFile(st.data, st.inodes[i], st'.data, st'.inodes[i])
  }

  lemma SameFilesTrans(a: St, b: St, c: St)
    requires SameFiles(a, b) && SameFiles(b, c)
    ensures SameFiles(a, c)
  {
    forall i | i in a.inodes
      ensures SameFile(a.data, a.inodes[i], c.data, c.inodes[i])
    {
      assert SameFile(a.data, a.inodes[i], b.data, b.inodes[i]) && SameFile(b.data, b.inodes[i], c.data, c.inodes[i]);
    }
  }

  lemma AllocSameFiles(st: St, st': St, owner: map<nat, Owner>, b: nat)
    requires Inv(st, owner, 0, {}) && b < st.size && !Used(st.bitmap, b)
    requires st' == st.(bitmap := st'.bitmap, data := st.data[b := Zeros()])
    requires Covers(st'.bitmap, st.size)
    requires forall c | 0 <= c < st.size :: Used(st'.bitmap, c) <==> c == b || Used(st.bitmap, c)
    ensures SameFiles(st, st')
  {
    AllocStep(st, st', owner, b);
    forall i, k | i in st.inodes && 0 <= k < MAXFILE * BSIZE
      ensures ByteAt(st'.data, st.inodes[i], k) == ByteAt(st.data, st.inodes[i], k)
    {
      assert Addr(st'.data, st.inodes[i], SlotOf(k / BSIZE)) == Addr(st.data, st.inodes[i], SlotOf(k / BSIZE));
    }
  }

  // Attaching a zeroed block where there was none changes no file's contents.
  lemma AttachSameFiles(st: St, st': St, owner: map<nat, Owner>, i: nat, s: nat, r: nat)
    requires Inv(st, owner, 0, {}) && r < st.size && r in owner && owner[r] == Fresh && s < NSLOTS
    requires Attaches(st, st', i, s, r) && Addr(st.data, st.inodes[i], s) == 0
    requires r in st.data && forall k | 0 <= k < BSIZE :: st.data[r][k] == 0
    requires forall a | a in st.data && a != st.inodes[i].addrs[NDIRECT] :: st'.data[a] == st.data[a]
    requires forall j | j in st.inodes :: st'.inodes[j].size == st.inodes[j].size
    ensures SameFiles(st, st')
  {
    forall j, k | j in st.inodes && 0 <= k < MAXFILE * BSIZE
      ensures ByteAt(st'.data, st'.inodes[j], k) == ByteAt(st.data, st.inodes[j], k)
    {
      var u := SlotOf(k / BSIZE);
      assert SlotOk(st, owner, j, u) && SlotOk(st, owner, i, NDIRECT);
    }
  }
}

/** balloc, bmap, readi, writei, itrunc and iupdate (fs.c:53-96, 207-224, 352-497). */
module FileSystem {
  import opened Bitmap
  import opened Blocks
  import opened Options

  const T_DEV: int := 3
  const TWO32: nat := 0x1_0000_0000

  // Err is the source's return value -1, Device a transfer handed to devsw, Panic a panic.
  datatype Io<+T> = Err | Device | Panic | Done(value: T)

  ghost predicate MoreUsed(size: nat, bm: seq<BitBlock>, bm': seq<BitBlock>)
    requires Covers(bm, size) && Covers(bm', size)
  {
    forall b | 0 <= b < size && Used(bm, b) :: Used(bm', b)
  }

  // Slots that hold a block keep it.
  ghost predicate KeepsBlocks(data: Disk, ip: Inode, data': Disk, ip': Inode) {
    InodeOk(data, ip) && InodeOk(data', ip')
    && forall s | 0 <= s < NSLOTS && Addr(data, ip, s) != 0 :: Addr(data', ip', s) == Addr(data, ip, s)
  }

  // Slots other than u hold what they held.
  ghost predicate OtherSlots(data: Disk, ip: Inode, data': Disk, ip': Inode, u: nat) {
    InodeOk(data, ip) && InodeOk(data', ip')
    && forall s | 0 <= s < NSLOTS && s != u :: Addr(data', ip', s) == Addr(data, ip, s)
  }

  /** What allocating for inode inum may do: no file's contents change, blocks in use stay in
      use, slots keep the blocks they hold, and only inum's block numbers change. */
  ghost predicate Grew(a: St, b: St, inum: nat) {
    && b.size == a.size && Covers(a.bitmap, a.size) && Covers(b.bitmap, a.size)
    && inum in a.inodes && inum in b.inodes
    && b.inodes == a.inodes[inum := a.inodes[inum].(addrs := b.inodes[inum].addrs)]
    && forall x: Effect :: GrewPart(x, a, b, inum)
  }

  datatype Effect = Files | Marks | Places

  ghost predicate GrewPart(x: Effect, a: St, b: St, inum: nat)
    requires Covers(a.bitmap, a.size) && Covers(b.bitmap, a.size) && inum in a.inodes && inum in b.inodes
  {
    match x
    case Files => SameFiles(a, b)
    case Marks => MoreUsed(a.size, a.bitmap, b.bitmap)
    case Places => KeepsBlocks(a.data, a.inodes[inum], b.data, b.inodes[inum])
  }

  lemma OpenGrew(a: St, b: St, inum: nat)
    requires Grew(a, b, inum)
    ensures SameFiles(a, b) && MoreUsed(a.size, a.bitmap, b.bitmap)
    ensures KeepsBlocks(a.data, a.inodes[inum], b.data, b.inodes[inum])
  {
    assert GrewPart(Files, a, b, inum) && GrewPart(Marks, a, b, inum) && GrewPart(Places, a, b, inum);
  }

  lemma GrewTrans(a: St, b: St, c: St, inum: nat)
    requires Grew(a, b, inum) && Grew(b, c, inum)
    ensures Grew(a, c, inum)
  {
    OpenGrew(a, b, inum);
    OpenGrew(b, c, inum);
    SameFilesTrans(a, b, c);
  }

  lemma GrewSame(a: St, owner: map<nat, Owner>, inum: nat)
    requires Inv(a, owner, 0, {}) && inum in a.inodes
    ensures Grew(a, a, inum)
  {
    assert a.inodes[inum].(addrs := a.inodes[inum].addrs) == a.inodes[inum];
    assert a.inodes[inum := a.inodes[inum]] == a.inodes;
  }

  // Balloc, then a slot filled in the table: all that Bmap promises.
  lemma AttachedEntry(st0: St, st1: St, st2: St, owner: map<nat, Owner>, i: nat, s: nat, r: nat)
    requires Inv(st1, owner, 0, {}) && r < st1.size && r in owner && owner[r] == Fresh && s < NSLOTS
    requires Attaches(st1, st2, i, s, r) && Addr(st1.data, st1.inodes[i], s) == 0
    requires r in st1.data && forall k | 0 <= k < BSIZE :: st1.data[r][k] == 0
    requires st2 == st1.(data := st2.data) && st1.inodes[i].addrs[NDIRECT] in st1.data
    requires st2.data == st1.data[st1.inodes[i].addrs[NDIRECT] := st2.data[st1.inodes[i].addrs[NDIRECT]]]
    requires st0.size == st1.size && st1.inodes == st0.inodes && SameFiles(st0, st1) && Covers(st0.bitmap, st0.size)
    requires MoreUsed(st0.size, st0.bitmap, st1.bitmap)
    requires OtherSlots(st0.data, st0.inodes[i], st1.data, st1.inodes[i], NSLOTS)
    ensures Inv(st2, owner[r := Slot(i, s)], 0, {}) && Grew(st0, st2, i)
  {
    AttachStep(st1, st2, owner, i, s, r);
    AttachSameFiles(st1, st2, owner, i, s, r);
    SameFilesTrans(st0, st1, st2);
    assert st0.inodes[i := st0.inodes[i].(addrs := st0.inodes[i].addrs)] == st0.inodes;
  }

  // The same for a slot of the inode itself.
  lemma FilledSlot(st0: St, st1: St, st2: St, owner: map<nat, Owner>, i: nat, s: nat, r: nat)
    requires Inv(st1, owner, 0, {}) && r < st1.size && r in owner && owner[r] == Fresh && i in st1.inodes
    requires s <= NDIRECT
    requires st0.size == st1.size && st1.inodes == st0.inodes && SameFiles(st0, st1) && Covers(st0.bitmap, st0.size)
    requires MoreUsed(st0.size, st0.bitmap, st1.bitmap)
    requires OtherSlots(st0.data, st0.inodes[i], st1.data, st1.inodes[i], NSLOTS)
    requires st1.inodes[i].addrs[s] == 0 && r in st1.data && st1.data[r] == Zeros()
    requires st2 == st1.(inodes := st1.inodes[i := st1.inodes[i].(addrs := st1.inodes[i].addrs[s := r])])
    ensures Good(st2, owner[r := Slot(i, s)], 0, {}) && Grew(st0, st2, i)
    ensures OtherSlots(st0.data, st0.inodes[i], st2.data, st2.inodes[i], s)
  {
    AttachDirect(st1, owner, i, s, r);
    AttachStep(st1, st2, owner, i, s, r);
    AttachSameFiles(st1, st2, owner, i, s, r);
    SameFilesTrans(st0, st1, st2);
    Pack(st2, owner[r := Slot(i, s)], 0, {});
  }

  lemma FilledEntry(st0: St, st1: St, owner: map<nat, Owner>, i: nat, j: nat, r: nat)
    requires Inv(st1, owner, 0, {}) && r < st1.size && r in owner && owner[r] == Fresh && i in st1.inodes
    requires j < NINDIRECT
    requires st0.size == st1.size && st1.inodes == st0.inodes && SameFiles(st0, st1) && Covers(st0.bitmap, st0.size)
    requires MoreUsed(st0.size, st0.bitmap, st1.bitmap)
    requires OtherSlots(st0.data, st0.inodes[i], st1.data, st1.inodes[i], NSLOTS)
    requires st1.inodes[i].addrs[NDIRECT] != 0 && InodeOk(st0.data, st0.inodes[i])
    requires Addr(st0.data, st0.inodes[i], NDIRECT + 1 + j) == 0
    requires r in st1.data && st1.data[r] == Zeros()
    ensures var t, s := st1.inodes[i].addrs[NDIRECT], NDIRECT + 1 + j;
            t in st1.data
            && var st2 := st1.(data := st1.data[t := PutWord(st1.data[t], j, r)]);
            Inv(st2, owner[r := Slot(i, s)], 0, {}) && Grew(st0, st2, i) && Addr(st2.data, st2.inodes[i], s) == r
            && OtherSlots(st0.data, st0.inodes[i], st2.data, st2.inodes[i], s)
  {
    AttachIndirect(st1, owner, i, j, r);
    var t := st1.inodes[i].addrs[NDIRECT];
    AttachedEntry(st0, st1, st1.(data := st1.data[t := PutWord(st1.data[t], j, r)]), owner, i, NDIRECT + 1 + j, r);
  }

  /* ---- how many blocks are missing ---- */

  // Only the slot of block bn, and the table if bn needs it, have been filled.
  ghost predicate Fills(data: Disk, ip: Inode, data': Disk, ip': Inode, bn: nat) {
    && InodeOk(data, ip) && InodeOk(data', ip') && bn < MAXFILE
    && (forall s | 0 <= s < NSLOTS && s != SlotOf(bn) && s != NDIRECT :: Addr(data', ip', s) == Addr(data, ip, s))
    && (if bn < NDIRECT then ip'.addrs[NDIRECT] == ip.addrs[NDIRECT] else ip'.addrs[NDIRECT] != 0)
  }

  // Blocks that bmap of bn allocates.
  ghost function Needs(data: Disk, ip: Inode, bn: nat): nat
    requires InodeOk(data, ip) && bn < MAXFILE
  {
    (if Addr(data, ip, SlotOf(bn)) == 0 then 1 else 0) + (if bn >= NDIRECT && ip.addrs[NDIRECT] == 0 then 1 else 0)
  }

  // Blocks from lo up to hi that the file does not have.
  ghost function Holes(data: Disk, ip: Inode, lo: nat, hi: nat): nat
    requires InodeOk(data, ip) && hi <= MAXFILE
    decreases hi - lo
  {
    if lo >= hi then 0 else (if Addr(data, ip, SlotOf(lo)) == 0 then 1 else 0) + Holes(data, ip, lo + 1, hi)
  }

  // Blocks it takes to give it all of them: those, and the table if it is needed and missing.
  ghost function Lacks(data: Disk, ip: Inode, lo: nat, hi: nat): nat
    requires InodeOk(data, ip) && hi <= MAXFILE
  {
    Holes(data, ip, lo, hi) + if lo < hi && NDIRECT < hi && ip.addrs[NDIRECT] == 0 then 1 else 0
  }

  lemma {:induction false} HolesSame(data: Disk, ip: Inode, data': Disk, ip': Inode, bn: nat, lo: nat, hi: nat)
    requires Fills(data, ip, data', ip', bn) && bn < lo && hi <= MAXFILE
    ensures Holes(data', ip', lo, hi) == Holes(data, ip, lo, hi)
    decreases hi - lo
  {
    if lo < hi {
      assert SlotOf(lo) != SlotOf(bn) && SlotOf(lo) != NDIRECT && SlotOf(lo) < NSLOTS;
      HolesSame(data, ip, data', ip', bn, lo + 1, hi);
    }
  }

  // What is lacking once block lo is there.
  lemma LacksNext(data: Disk, ip: Inode, data': Disk, ip': Inode, lo: nat, hi: nat)
    requires Fills(data, ip, data', ip', lo) && lo < hi <= MAXFILE
    ensures Lacks(data, ip, lo, hi) == Needs(data, ip, lo) + Lacks(data', ip', lo + 1, hi)
  {
    HolesSame(data, ip, data', ip', lo, lo + 1, hi);
  }

  // The block after the last of the n bytes from off.
  function EndBlock(off: nat, n: nat): nat {
    if n == 0 then off / BSIZE else (off + n - 1) / BSIZE + 1
  }

  lemma EndInFile(off: nat, n: nat)
    requires off + n <= MAXFILE * BSIZE
    ensures EndBlock(off, n) <= MAXFILE && (n > 0 ==> off / BSIZE < EndBlock(off, n))
  {
  }

  // A transfer of m of the `left` bytes at pos, within one block, and then the rest.
  lemma NextBlock(pos: nat, m: nat, left: nat)
    requires 0 < m <= left && pos % BSIZE + m <= BSIZE && (m < left ==> (pos + m) % BSIZE == 0)
    ensures m < left ==> (pos + m) / BSIZE == pos / BSIZE + 1 && EndBlock(pos + m, left - m) == EndBlock(pos, left)
    ensures m == left ==> EndBlock(pos, left) == pos / BSIZE + 1
  {
    var q := pos / BSIZE;
    assert pos == q * BSIZE + pos % BSIZE;
    if m < left {
      assert pos + m == (q + 1) * BSIZE;
    } else {
      assert q * BSIZE <= pos + m - 1 < (q + 1) * BSIZE;
    }
  }

  // What is still lacking with `left` bytes to go at pos.
  ghost function ToGo(data: Disk, ip: Inode, pos: nat, left: nat): nat
    requires InodeOk(data, ip) && pos + left <= MAXFILE * BSIZE
  {
    EndInFile(pos, left);
    if left == 0 then 0 else Lacks(data, ip, pos / BSIZE, EndBlock(pos, left))
  }

  lemma ToGoNext(data: Disk, ip: Inode, data': Disk, ip': Inode, pos: nat, m: nat, left: nat)
    requires pos + left <= MAXFILE * BSIZE && Fills(data, ip, data', ip', pos / BSIZE)
    requires 0 < m <= left && pos % BSIZE + m <= BSIZE && (m < left ==> (pos + m) % BSIZE == 0)
    ensures ToGo(data, ip, pos, left) == Needs(data, ip, pos / BSIZE) + ToGo(data', ip', pos + m, left - m)
  {
    EndInFile(pos, left);
    NextBlock(pos, m, left);
    LacksNext(data, ip, data', ip', pos / BSIZE, EndBlock(pos, left));
  }

  lemma NeedsFirst(data: Disk, ip: Inode, pos: nat, left: nat)
    requires InodeOk(data, ip) && 0 < left && pos + left <= MAXFILE * BSIZE
    ensures pos / BSIZE < MAXFILE && Needs(data, ip, pos / BSIZE) <= ToGo(data, ip, pos, left)
  {
    EndInFile(pos, left);
  }

  // Clear blocks left over once the `left` bytes at pos have theirs: negative if there are too few.
  ghost function Slack(st: St, inum: nat, pos: nat, left: nat): int
    requires Covers(st.bitmap, st.size) && inum in st.inodes && InodeOk(st.data, st.inodes[inum])
    requires pos + left <= MAXFILE * BSIZE
  {
    ClearBits(st.bitmap, st.size) - ToGo(st.data, st.inodes[inum], pos, left)
  }

  datatype Change = Count | Filled | Still | New

  ghost predicate GotPart(x: Change, st: St, o: map<nat, Owner>, st': St, o': map<nat, Owner>, inum: nat, bn: nat,
                          b: nat)
    requires Grew(st, st', inum) && InodeOk(st.data, st.inodes[inum]) && bn < MAXFILE && b < st.size
  {
    match x
    case Count =>
      ClearBits(st'.bitmap, st'.size) == ClearBits(st.bitmap, st.size) - Needs(st.data, st.inodes[inum], bn)
    case Filled => Fills(st.data, st.inodes[inum], st'.data, st'.inodes[inum], bn)
    case Still => Mapped(st.data, st.inodes[inum], bn) ==> st' == st && o' == o
    case New => Mapped(st.data, st.inodes[inum], bn) || (Used(st'.bitmap, b) && !Used(st.bitmap, b))
  }

  /** What bmap does when it finds block bn of the file in b: nothing if the block was there; if not,
      it takes the clear blocks that it needs, b among them, and fills no other slot than theirs. */
  ghost predicate GotBlock(st: St, o: map<nat, Owner>, st': St, o': map<nat, Owner>, inum: nat, bn: nat, b: nat) {
    && Grew(st, st', inum) && InodeOk(st.data, st.inodes[inum]) && InodeOk(st'.data, st'.inodes[inum])
    && bn < MAXFILE && b < st.size
    && forall x: Change :: GotPart(x, st, o, st', o', inum, bn, b)
  }

  lemma OpenGot(st: St, o: map<nat, Owner>, st': St, o': map<nat, Owner>, inum: nat, bn: nat, b: nat)
    requires GotBlock(st, o, st', o', inum, bn, b)
    ensures ClearBits(st'.bitmap, st'.size) == ClearBits(st.bitmap, st.size) - Needs(st.data, st.inodes[inum], bn)
    ensures Fills(st.data, st.inodes[inum], st'.data, st'.inodes[inum], bn)
    ensures Mapped(st.data, st.inodes[inum], bn) ==> st' == st && o' == o
    ensures Mapped(st.data, st.inodes[inum], bn) || (Used(st'.bitmap, b) && !Used(st.bitmap, b))
  {
    assert GotPart(Count, st, o, st', o', inum, bn, b) && GotPart(Filled, st, o, st', o', inum, bn, b);
    assert GotPart(Still, st, o, st', o', inum, bn, b) && GotPart(New, st, o, st', o', inum, bn, b);
  }

  // A round of either loop leaves as much to spare.
  lemma SlackNext(st: St, o: map<nat, Owner>, st': St, o': map<nat, Owner>, inum: nat, pos: nat, m: nat, left: nat,
                  b: nat)
    requires GotBlock(st, o, st', o', inum, pos / BSIZE, b) && pos + left <= MAXFILE * BSIZE
    requires 0 < m <= left && pos % BSIZE + m <= BSIZE && (m < left ==> (pos + m) % BSIZE == 0)
    ensures Slack(st', inum, pos + m, left - m) == Slack(st, inum, pos, left)
  {
    OpenGot(st, o, st', o', inum, pos / BSIZE, b);
    ToGoNext(st.data, st.inodes[inum], st'.data, st'.inodes[inum], pos, m, left);
  }

  // Block bn of the file exists.
  ghost predicate Mapped(data: Disk, ip: Inode, bn: nat) {
    InodeOk(data, ip) && bn < MAXFILE && Addr(data, ip, SlotOf(bn)) != 0
  }

  ghost predicate SameUsed(size: nat, bm: seq<BitBlock>, bm': seq<BitBlock>)
    requires Covers(bm, size) && Covers(bm', size)
  {
    forall b | 0 <= b < size :: Used(bm, b) <==> Used(bm', b)
  }

  // Block bn of a file holds some of the n bytes from off.
  predicate Spans(off: nat, n: nat, bn: nat) {
    n > 0 && bn * BSIZE < off + n && off < (bn + 1) * BSIZE
  }

  // Every block that the n bytes from off lie in exists.
  ghost predicate AllMapped(data: Disk, ip: Inode, off: nat, n: nat) {
    forall bn | 0 <= bn < MAXFILE && Spans(off, n, bn) :: Mapped(data, ip, bn)
  }

  // After reading tot of count bytes from off: nothing has changed if no block was missing,
  // and only then.
  ghost predicate Tracks(st0: St, o0: map<nat, Owner>, st: St, o: map<nat, Owner>, inum: nat, off: nat, tot: nat,
                         count: nat)
    requires inum in st0.inodes && st.size == st0.size && Covers(st0.bitmap, st0.size) && Covers(st.bitmap, st0.size)
  {
    && (SameUsed(st0.size, st0.bitmap, st.bitmap) ==>
        st == st0 && o == o0 && AllMapped(st0.data, st0.inodes[inum], off, tot))
    && (AllMapped(st0.data, st0.inodes[inum], off, count) ==> st == st0 && o == o0)
  }

  datatype Got = Contents | Trace | Room

  ghost predicate ReadPart(x: Got, st0: St, o0: map<nat, Owner>, st: St, o: map<nat, Owner>, inum: nat, off: nat,
                           got: seq<Byte>, count: nat)
    requires Grew(st0, st, inum) && InodeOk(st0.data, st0.inodes[inum]) && InodeOk(st.data, st.inodes[inum])
    requires |got| <= count && off + count <= MAXFILE * BSIZE
  {
    match x
    case Contents => Reads(st0.data, st0.inodes[inum], off, got)
    case Trace => Tracks(st0, o0, st, o, inum, off, |got|, count)
    case Room => Slack(st, inum, off + |got|, count - |got|) == Slack(st0, inum, off, count)
  }

  // readi's loop, started in st0, has read `got` of the count bytes.
  ghost predicate ReadSoFar(st0: St, o0: map<nat, Owner>, st: St, o: map<nat, Owner>, inum: nat, off: nat,
                            got: seq<Byte>, count: nat)
  {
    && Grew(st0, st, inum) && InodeOk(st0.data, st0.inodes[inum]) && InodeOk(st.data, st.inodes[inum])
    && |got| <= count && off + count <= MAXFILE * BSIZE
    && forall x: Got :: ReadPart(x, st0, o0, st, o, inum, off, got, count)
  }

  lemma OpenRead(st0: St, o0: map<nat, Owner>, st: St, o: map<nat, Owner>, inum: nat, off: nat, got: seq<Byte>,
                 count: nat)
    requires ReadSoFar(st0, o0, st, o, inum, off, got, count)
    ensures Reads(st0.data, st0.inodes[inum], off, got) && Tracks(st0, o0, st, o, inum, off, |got|, count)
    ensures Slack(st, inum, off + |got|, count - |got|) == Slack(st0, inum, off, count)
  {
    assert ReadPart(Contents, st0, o0, st, o, inum, off, got, count);
    assert ReadPart(Trace, st0, o0, st, o, inum, off, got, count);
    assert ReadPart(Room, st0, o0, st, o, inum, off, got, count);
  }

  lemma ReadNothing(st: St, o: map<nat, Owner>, inum: nat, off: nat, count: nat)
    requires Inv(st, o, 0, {}) && inum in st.inodes && off + count <= MAXFILE * BSIZE
    ensures ReadSoFar(st, o, st, o, inum, off, [], count)
  {
    GrewSame(st, o, inum);
    OpenGrew(st, st, inum);
  }

  // bmap has no block for the next bytes.
  lemma ReadStuck(st0: St, o0: map<nat, Owner>, st: St, o: map<nat, Owner>, inum: nat, off: nat, got: seq<Byte>,
                  count: nat)
    requires ReadSoFar(st0, o0, st, o, inum, off, got, count) && |got| < count
    requires (off + |got|) / BSIZE < MAXFILE
    requires ClearBits(st.bitmap, st.size) < Needs(st.data, st.inodes[inum], (off + |got|) / BSIZE)
    ensures Slack(st0, inum, off, count) < 0 && !AllMapped(st0.data, st0.inodes[inum], off, count)
  {
    OpenRead(st0, o0, st, o, inum, off, got, count);
    NeedsFirst(st.data, st.inodes[inum], off + |got|, count - |got|);
    MustBeMapped(st0, inum, off, |got|, count);
  }

  lemma ReadAll(st0: St, o0: map<nat, Owner>, st: St, o: map<nat, Owner>, inum: nat, off: nat, got: seq<Byte>)
    requires ReadSoFar(st0, o0, st, o, inum, off, got, |got|)
    ensures Reads(st0.data, st0.inodes[inum], off, got) && Slack(st0, inum, off, |got|) >= 0
    ensures AllMapped(st0.data, st0.inodes[inum], off, |got|) ==> st == st0 && o == o0
    ensures SameUsed(st0.size, st0.bitmap, st.bitmap) <==> AllMapped(st0.data, st0.inodes[inum], off, |got|)
  {
    OpenRead(st0, o0, st, o, inum, off, got, |got|);
  }

  // got is the file's contents from off on.
  ghost predicate Reads(data: Disk, ip: Inode, off: nat, got: seq<Byte>)
    requires InodeOk(data, ip)
  {
    off + |got| <= MAXFILE * BSIZE && forall j | 0 <= j < |got| :: got[j] == ByteAt(data, ip, off + j)
  }

  // The size of the next transfer at pos: up to the end of the block or of what is left.
  function ChunkSize(pos: nat, left: nat): (m: nat)
    requires left > 0
    ensures 0 < m <= left && pos % BSIZE + m <= BSIZE
    ensures m < left ==> (pos + m) % BSIZE == 0
  {
    Min(left, BSIZE - pos % BSIZE)
  }

  lemma TracksStep(st0: St, o0: map<nat, Owner>, st1: St, o1: map<nat, Owner>, st2: St, o2: map<nat, Owner>,
                   inum: nat, off: nat, pos: nat, got: seq<Byte>, m: nat, count: nat, b: nat)
    requires pos == off + |got| && ReadSoFar(st0, o0, st1, o1, inum, off, got, count)
    requires GotBlock(st1, o1, st2, o2, inum, pos / BSIZE, b)
    requires 0 < m && |got| + m <= count && pos % BSIZE + m <= BSIZE && (|got| == 0 || pos % BSIZE == 0)
    ensures Tracks(st0, o0, st2, o2, inum, off, |got| + m, count)
  {
    OpenRead(st0, o0, st1, o1, inum, off, got, count);
    OpenGrew(st0, st1, inum);
    OpenGrew(st1, st2, inum);
    OpenGot(st1, o1, st2, o2, inum, pos / BSIZE, b);
    var bn := pos / BSIZE;
    assert Spans(off, |got| + m, bn) && Spans(off, count, bn);
    if SameUsed(st0.size, st0.bitmap, st2.bitmap) {
      assert forall c | 0 <= c < st0.size :: Used(st1.bitmap, c) <==> Used(st0.bitmap, c);
      assert Mapped(st1.data, st1.inodes[inum], bn);
      forall c | 0 <= c < MAXFILE && Spans(off, |got| + m, c)
        ensures Mapped(st0.data, st0.inodes[inum], c)
      {
        assert c == bn || Spans(off, |got|, c);
      }
    }
  }
  lemma RoomStep(st0: St, o0: map<nat, Owner>, st1: St, o1: map<nat, Owner>, st2: St, o2: map<nat, Owner>,
                 inum: nat, off: nat, pos: nat, got: seq<Byte>, m: nat, count: nat, b: nat)
    requires pos == off + |got| && ReadSoFar(st0, o0, st1, o1, inum, off, got, count)
    requires GotBlock(st1, o1, st2, o2, inum, pos / BSIZE, b)
    requires 0 < m && |got| + m <= count && pos % BSIZE + m <= BSIZE && (|got| + m < count ==> (pos + m) % BSIZE == 0)
    ensures Slack(st2, inum, pos + m, count - |got| - m) == Slack(st0, inum, off, count)
  {
    OpenRead(st0, o0, st1, o1, inum, off, got, count);
    SlackNext(st1, o1, st2, o2, inum, pos, m, count - |got|, b);
  }

  lemma ReadsStep(st0: St, o0: map<nat, Owner>, st1: St, o1: map<nat, Owner>, st2: St, inum: nat, off: nat,
                  got: seq<Byte>, more: seq<Byte>, count: nat)
    requires ReadSoFar(st0, o0, st1, o1, inum, off, got, count) && Grew(st0, st2, inum)
    requires InodeOk(st2.data, st2.inodes[inum]) && Reads(st2.data, st2.inodes[inum], off + |got|, more)
    ensures Reads(st0.data, st0.inodes[inum], off, got + more)
  {
    OpenRead(st0, o0, st1, o1, inum, off, got, count);
    OpenGrew(st0, st2, inum);
    assert SameFile(st0.data, st0.inodes[inum], st2.data, st2.inodes[inum]);
    forall j | 0 <= j < |got + more|
      ensures (got + more)[j] == ByteAt(st0.data, st0.inodes[inum], off + j)
    {
      if j >= |got| {
        assert more[j - |got|] == ByteAt(st2.data, st2.inodes[inum], off + |got| + (j - |got|));
      }
    }
  }

  lemma ReadingStep(st0: St, o0: map<nat, Owner>, st1: St, o1: map<nat, Owner>, st2: St, o2: map<nat, Owner>,
                    inum: nat, off: nat, pos: nat, got: seq<Byte>, more: seq<Byte>, count: nat, b: nat)
    requires pos == off + |got| && ReadSoFar(st0, o0, st1, o1, inum, off, got, count)
    requires GotBlock(st1, o1, st2, o2, inum, pos / BSIZE, b) && Reads(st2.data, st2.inodes[inum], pos, more)
    requires 0 < |more| && |got| + |more| <= count && pos % BSIZE + |more| <= BSIZE
    requires |got| == 0 || pos % BSIZE == 0
    requires |got| + |more| < count ==> (pos + |more|) % BSIZE == 0
    ensures ReadSoFar(st0, o0, st2, o2, inum, off, got + more, count)
  {
    RoomStep(st0, o0, st1, o1, st2, o2, inum, off, pos, got, |more|, count, b);
    TracksStep(st0, o0, st1, o1, st2, o2, inum, off, pos, got, |more|, count, b);
    GrewTrans(st0, st1, st2, inum);
    ReadsStep(st0, o0, st1, o1, st2, inum, off, got, more, count);
  }

  // m bytes from off, all in one block.
  lemma SliceReads(st: St, owner: map<nat, Owner>, inum: nat, off: nat, m: nat, b: nat)
    requires Inv(st, owner, 0, {}) && inum in st.inodes && off % BSIZE + m <= BSIZE && off + m <= MAXFILE * BSIZE
    requires m > 0
    requires 0 < b < st.size && b == Addr(st.data, st.inodes[inum], SlotOf(off / BSIZE))
    ensures b in st.data && Reads(st.data, st.inodes[inum], off, st.data[b][off % BSIZE..off % BSIZE + m])
  {
    assert BlockOk(st, owner, b);
    var got := st.data[b][off % BSIZE..off % BSIZE + m];
    forall j | 0 <= j < |got|
      ensures got[j] == ByteAt(st.data, st.inodes[inum], off + j)
    {
      InBlock(off, j);
    }
  }

  lemma MustBeMapped(st0: St, inum: nat, off: nat, tot: nat, count: nat)
    requires inum in st0.inodes && tot < count && off + tot < MAXFILE * BSIZE
    ensures AllMapped(st0.data, st0.inodes[inum], off, count) ==>
        Mapped(st0.data, st0.inodes[inum], (off + tot) / BSIZE)
  {
    assert Spans(off, count, (off + tot) / BSIZE);
  }

  // The file's contents with src laid over them from off on.
  ghost predicate Overlaid(data: Disk, ip: Inode, data': Disk, ip': Inode, off: nat, src: seq<Byte>) {
    && InodeOk(data, ip) && InodeOk(data', ip')
    && forall k | 0 <= k < MAXFILE * BSIZE ::
         ByteAt(data', ip', k) == if off <= k < off + |src| then src[k - off] else ByteAt(data, ip, k)
  }

  ghost predicate OthersSame(st0: St, st: St, inum: nat) {
    forall j | j in st0.inodes && j != inum ::
        j in st.inodes && SameFile(st0.data, st0.inodes[j], st.data, st.inodes[j])
  }

  // What writei's loop has done once src has been written from off on, starting in st0.
  ghost predicate Wrote(st0: St, st: St, inum: nat, off: nat, src: seq<Byte>) {
    && inum in st0.inodes && inum in st.inodes && st.size == st0.size
    && st.inodes == st0.inodes[inum := st0.inodes[inum].(addrs := st.inodes[inum].addrs)]
    && forall x: Result :: WrotePart(x, st0, st, inum, off, src)
  }

  datatype Result = Others | Over | Kept | There

  ghost predicate WrotePart(x: Result, st0: St, st: St, inum: nat, off: nat, src: seq<Byte>)
    requires inum in st0.inodes && inum in st.inodes
  {
    match x
    case Others => OthersSame(st0, st, inum)
    case Over => Overlaid(st0.data, st0.inodes[inum], st.data, st.inodes[inum], off, src)
    case Kept => KeepsBlocks(st0.data, st0.inodes[inum], st.data, st.inodes[inum])
    case There => AllMapped(st.data, st.inodes[inum], off, |src|)
  }

  lemma OpenWrote(st0: St, st: St, inum: nat, off: nat, src: seq<Byte>)
    requires Wrote(st0, st, inum, off, src)
    ensures OthersSame(st0, st, inum) && Overlaid(st0.data, st0.inodes[inum], st.data, st.inodes[inum], off, src)
    ensures KeepsBlocks(st0.data, st0.inodes[inum], st.data, st.inodes[inum])
    ensures AllMapped(st.data, st.inodes[inum], off, |src|)
  {
    assert WrotePart(Others, st0, st, inum, off, src) && WrotePart(Over, st0, st, inum, off, src);
    assert WrotePart(Kept, st0, st, inum, off, src) && WrotePart(There, st0, st, inum, off, src);
  }

  lemma WroteNothing(st: St, owner: map<nat, Owner>, inum: nat, off: nat)
    requires Inv(st, owner, 0, {}) && inum in st.inodes
    ensures Wrote(st, st, inum, off, [])
  {
    GrewSame(st, owner, inum);
    OpenGrew(st, st, inum);
  }

  // Allocating in the middle of a write.
  lemma WroteGrew(st0: St, st1: St, st2: St, inum: nat, off: nat, src: seq<Byte>)
    requires Wrote(st0, st1, inum, off, src) && Grew(st1, st2, inum)
    ensures Wrote(st0, st2, inum, off, src)
  {
    OpenWrote(st0, st1, inum, off, src);
    OpenGrew(st1, st2, inum);
    assert SameFile(st1.data, st1.inodes[inum], st2.data, st2.inodes[inum]);
    forall j | j in st0.inodes && j != inum
      ensures j in st2.inodes && SameFile(st0.data, st0.inodes[j], st2.data, st2.inodes[j])
    {
      assert SameFile(st0.data, st0.inodes[j], st1.data, st1.inodes[j])
          && SameFile(st1.data, st1.inodes[j], st2.data, st2.inodes[j]);
    }
    forall bn | 0 <= bn < MAXFILE && Spans(off, |src|, bn)
      ensures Mapped(st2.data, st2.inodes[inum], bn)
    {
      assert Mapped(st1.data, st1.inodes[inum], bn);
    }
  }

  // Block b, holding block bn of inode inum, is overwritten with d.
  lemma BlockBytes(st: St, owner: map<nat, Owner>, inum: nat, bn: nat, b: nat, d: Data, j: nat, k: nat)
    requires Inv(st, owner, 0, {}) && b < st.size && b in owner && bn < MAXFILE && owner[b] == Slot(inum, SlotOf(bn))
    requires j in st.inodes && k < MAXFILE * BSIZE
    ensures InodeOk(st.data[b := d], st.inodes[j])
    ensures ByteAt(st.data[b := d], st.inodes[j], k) ==
            if j == inum && k / BSIZE == bn then d[k % BSIZE] else ByteAt(st.data, st.inodes[j], k)
  {
    WriteStep(st, owner, b, d);
    assert BlockOk(st, owner, b);
    var s := SlotOf(k / BSIZE);
    assert SlotOk(st, owner, j, s);
  }

  // Bytes at..at + |chunk| of a block replaced.
  function Patch(d: Data, at: nat, chunk: seq<Byte>): Data
    requires at + |chunk| <= BSIZE
  {
    d[..at] + chunk + d[at + |chunk|..]
  }

  lemma PatchByte(d: Data, pos: nat, chunk: seq<Byte>, k: nat)
    requires 0 < |chunk| && pos % BSIZE + |chunk| <= BSIZE
    ensures pos <= k < pos + |chunk| ==> k / BSIZE == pos / BSIZE
    ensures pos <= k < pos + |chunk| ==> Patch(d, pos % BSIZE, chunk)[k % BSIZE] == chunk[k - pos]
    ensures k / BSIZE == pos / BSIZE && !(pos <= k < pos + |chunk|) ==>
        Patch(d, pos % BSIZE, chunk)[k % BSIZE] == d[k % BSIZE]
  {
    if pos <= k < pos + |chunk| { InBlock(pos, k - pos); }
    if k / BSIZE == pos / BSIZE { assert k % BSIZE - pos % BSIZE == k - pos; }
  }

  lemma PatchBytes(st: St, owner: map<nat, Owner>, inum: nat, pos: nat, b: nat, chunk: seq<Byte>)
    requires Inv(st, owner, 0, {}) && 0 < b < st.size && b in owner && b in st.data && inum in st.inodes
    requires pos + |chunk| <= MAXFILE * BSIZE && 0 < |chunk| && pos % BSIZE + |chunk| <= BSIZE
    requires owner[b] == Slot(inum, SlotOf(pos / BSIZE)) && Addr(st.data, st.inodes[inum], SlotOf(pos / BSIZE)) == b
    ensures var data' := st.data[b := Patch(st.data[b], pos % BSIZE, chunk)];
            && Overlaid(st.data, st.inodes[inum], data', st.inodes[inum], pos, chunk)
            && forall j | j in st.inodes && j != inum :: SameFile(st.data, st.inodes[j], data', st.inodes[j])
  {
    var d := Patch(st.data[b], pos % BSIZE, chunk);
    var data' := st.data[b := d];
    WriteStep(st, owner, b, d);
    forall j, k | j in st.inodes && 0 <= k < MAXFILE * BSIZE
      ensures ByteAt(data', st.inodes[j], k) ==
              if j == inum && pos <= k < pos + |chunk| then chunk[k - pos] else ByteAt(st.data, st.inodes[j], k)
    {
      BlockBytes(st, owner, inum, pos / BSIZE, b, d, j, k);
      PatchByte(st.data[b], pos, chunk, k);
    }
  }

  lemma WroteChunk(st0: St, st: St, owner: map<nat, Owner>, inum: nat, off: nat, src: seq<Byte>, b: nat,
                   chunk: seq<Byte>)
    requires Wrote(st0, st, inum, off, src) && Inv(st, owner, 0, {}) && 0 < b < st.size && b in owner && b in st.data
    requires off + |src| + |chunk| <= MAXFILE * BSIZE && 0 < |chunk| && (off + |src|) % BSIZE + |chunk| <= BSIZE
    requires |src| == 0 || (off + |src|) % BSIZE == 0
    requires owner[b] == Slot(inum, SlotOf((off + |src|) / BSIZE))
    requires Addr(st.data, st.inodes[inum], SlotOf((off + |src|) / BSIZE)) == b
    ensures Wrote(st0, st.(data := st.data[b := Patch(st.data[b], (off + |src|) % BSIZE, chunk)]), inum, off,
        src + chunk)
  {
    OpenWrote(st0, st, inum, off, src);
    var pos := off + |src|;
    var d := Patch(st.data[b], pos % BSIZE, chunk);
    var st' := st.(data := st.data[b := d]);
    WriteStep(st, owner, b, d);
    PatchBytes(st, owner, inum, pos, b, chunk);
    OverlayTwice(st0.data, st0.inodes[inum], st.data, st.inodes[inum], st'.data, st'.inodes[inum], off, src, chunk);
    forall j | j in st0.inodes && j != inum
      ensures j in st'.inodes && SameFile(st0.data, st0.inodes[j], st'.data, st'.inodes[j])
    {
      assert SameFile(st0.data, st0.inodes[j], st.data, st.inodes[j])
          && SameFile(st.data, st.inodes[j], st'.data, st'.inodes[j]);
    }
    forall bn | 0 <= bn < MAXFILE && Spans(off, |src + chunk|, bn)
      ensures Mapped(st'.data, st'.inodes[inum], bn)
    {
      assert bn == pos / BSIZE || (Spans(off, |src|, bn) && Mapped(st.data, st.inodes[inum], bn));
    }
  }

  // Every block below the file's size exists.
  ghost predicate NoHoles(data: Disk, ip: Inode) {
    AllMapped(data, ip, 0, ip.size)
  }

  lemma GrownNoHoles(data: Disk, ip: Inode, data': Disk, ip': Inode, off: nat, n: nat)
    requires NoHoles(data, ip) && off <= ip.size && off + n <= MAXFILE * BSIZE
    requires KeepsBlocks(data, ip, data', ip') && AllMapped(data', ip', off, n)
    requires ip'.size == if off + n > ip.size then off + n else ip.size
    ensures NoHoles(data', ip')
  {
    forall bn | 0 <= bn < MAXFILE && Spans(0, ip'.size, bn)
      ensures Mapped(data', ip', bn)
    {
      if Spans(0, ip.size, bn) {
        assert Mapped(data, ip, bn);
      } else {
        assert Spans(off, n, bn);
      }
    }
  }

  /** mkfs rounds the root directory's size up after writing its entries (mkfs.c:158-163).  That leaves a block
      of the directory missing exactly when the entries filled their last block. */
  lemma MkfsRootHole(data: Disk, ip: Inode)
    requires NoHoles(data, ip) && ip.size < MAXFILE * BSIZE && InodeOk(data, ip)
    requires forall bn | 0 <= bn < MAXFILE && bn * BSIZE >= ip.size :: !Mapped(data, ip, bn)
    ensures NoHoles(data, ip.(size := (ip.size / BSIZE + 1) * BSIZE)) <==> ip.size % BSIZE != 0
  {
    var q := ip.size / BSIZE;
    var ip' := ip.(size := (q + 1) * BSIZE);
    assert Spans(0, ip'.size, q);
    assert forall bn | 0 <= bn < MAXFILE :: Mapped(data, ip', bn) <==> Mapped(data, ip, bn);
    if ip.size % BSIZE != 0 {
      assert forall bn | 0 <= bn < MAXFILE && Spans(0, ip'.size, bn) :: Spans(0, ip.size, bn) && Mapped(data, ip, bn);
    } else {
      assert q * BSIZE >= ip.size && !Mapped(data, ip', q);
    }
  }

  lemma NoHolesHere(data: Disk, ip: Inode, off: nat, n: nat)
    requires NoHoles(data, ip) && off + n <= ip.size
    ensures AllMapped(data, ip, off, n)
  {
    forall bn | 0 <= bn < MAXFILE && Spans(off, n, bn)
      ensures Mapped(data, ip, bn)
    {
      assert Spans(0, ip.size, bn);
    }
  }

  ghost function Resized(st: St, inum: nat, n: nat): St
    requires inum in st.inodes
  {
    st.(inodes := st.inodes[inum := st.inodes[inum].(size := n)])
  }

  // b is a with the first n block numbers of inode t cleared, and perhaps some more.
  ghost predicate Zeroed(a: map<nat, Inode>, b: map<nat, Inode>, t: nat, n: nat) {
    && t in a && t in b && b == a[t := a[t].(addrs := b[t].addrs)]
    && |a[t].addrs| == |b[t].addrs| == NDIRECT + 1 && b[t].addrs[NDIRECT] == a[t].addrs[NDIRECT]
    && forall s | 0 <= s < n && s < NDIRECT :: b[t].addrs[s] == 0
  }

  lemma ZeroedNext(a: map<nat, Inode>, b: map<nat, Inode>, c: map<nat, Inode>, t: nat, n: nat)
    requires Zeroed(a, b, t, n) && n < NDIRECT && c == b[t := b[t].(addrs := b[t].addrs[n := 0])]
    ensures Zeroed(a, c, t, n + 1)
  {
  }

  datatype Put = Bytes | Nodes | Space

  ghost predicate PutPart(x: Put, st0: St, st: St, inum: nat, off: nat, pre: seq<Byte>, total: nat)
    requires inum in st0.inodes && inum in st.inodes && InodeOk(st0.data, st0.inodes[inum])
    requires InodeOk(st.data, st.inodes[inum]) && Covers(st0.bitmap, st0.size) && Covers(st.bitmap, st.size)
    requires |pre| <= total && off + total <= MAXFILE * BSIZE
  {
    match x
    case Bytes => Wrote(st0, st, inum, off, pre)
    case Nodes => AllMapped(st0.data, st0.inodes[inum], off, total) ==> st.inodes == st0.inodes
    case Space => Slack(st, inum, off + |pre|, total - |pre|) == Slack(st0, inum, off, total)
  }

  // writei's loop, started in st0, has written `pre` of the total bytes.
  ghost predicate WroteSoFar(st0: St, st: St, inum: nat, off: nat, pre: seq<Byte>, total: nat) {
    && inum in st0.inodes && inum in st.inodes && InodeOk(st0.data, st0.inodes[inum])
    && InodeOk(st.data, st.inodes[inum]) && Covers(st0.bitmap, st0.size) && Covers(st.bitmap, st.size)
    && |pre| <= total && off + total <= MAXFILE * BSIZE
    && forall x: Put :: PutPart(x, st0, st, inum, off, pre, total)
  }

  lemma OpenPut(st0: St, st: St, inum: nat, off: nat, pre: seq<Byte>, total: nat)
    requires WroteSoFar(st0, st, inum, off, pre, total)
    ensures Wrote(st0, st, inum, off, pre)
    ensures AllMapped(st0.data, st0.inodes[inum], off, total) ==> st.inodes == st0.inodes
    ensures Slack(st, inum, off + |pre|, total - |pre|) == Slack(st0, inum, off, total)
  {
    assert PutPart(Bytes, st0, st, inum, off, pre, total) && PutPart(Nodes, st0, st, inum, off, pre, total);
    assert PutPart(Space, st0, st, inum, off, pre, total);
  }

  lemma PutNothing(st: St, owner: map<nat, Owner>, inum: nat, off: nat, total: nat)
    requires Inv(st, owner, 0, {}) && inum in st.inodes && off + total <= MAXFILE * BSIZE
    ensures WroteSoFar(st, st, inum, off, [], total)
  {
    WroteNothing(st, owner, inum, off);
  }

  lemma PutAll(st0: St, st: St, inum: nat, off: nat, src: seq<Byte>)
    requires WroteSoFar(st0, st, inum, off, src, |src|)
    ensures Wrote(st0, st, inum, off, src) && Slack(st0, inum, off, |src|) >= 0
    ensures AllMapped(st0.data, st0.inodes[inum], off, |src|) ==> st.inodes == st0.inodes
  {
    OpenPut(st0, st, inum, off, src, |src|);
  }

  // A block of the file that was there when the loop began is there still.
  lemma StillMapped(st0: St, st: St, inum: nat, off: nat, pre: seq<Byte>, total: nat)
    requires WroteSoFar(st0, st, inum, off, pre, total) && |pre| < total
    requires AllMapped(st0.data, st0.inodes[inum], off, total)
    ensures Mapped(st.data, st.inodes[inum], (off + |pre|) / BSIZE)
  {
    OpenPut(st0, st, inum, off, pre, total);
    OpenWrote(st0, st, inum, off, pre);
    MustBeMapped(st0, inum, off, |pre|, total);
  }

  lemma PutStuck(st0: St, st: St, inum: nat, off: nat, pre: seq<Byte>, total: nat)
    requires WroteSoFar(st0, st, inum, off, pre, total) && |pre| < total && (off + |pre|) / BSIZE < MAXFILE
    requires ClearBits(st.bitmap, st.size) < Needs(st.data, st.inodes[inum], (off + |pre|) / BSIZE)
    ensures Slack(st0, inum, off, total) < 0 && !AllMapped(st0.data, st0.inodes[inum], off, total)
  {
    OpenPut(st0, st, inum, off, pre, total);
    NeedsFirst(st.data, st.inodes[inum], off + |pre|, total - |pre|);
    if AllMapped(st0.data, st0.inodes[inum], off, total) { StillMapped(st0, st, inum, off, pre, total); }
  }

  // The block is found, and then written: st1 to st2 to st3.
  lemma PutMore(st0: St, st1: St, o1: map<nat, Owner>, st2: St, o2: map<nat, Owner>, st3: St, inum: nat, off: nat,
                pre: seq<Byte>, chunk: seq<Byte>, total: nat, b: nat)
    requires WroteSoFar(st0, st1, inum, off, pre, total) && Wrote(st0, st3, inum, off, pre + chunk)
    requires GotBlock(st1, o1, st2, o2, inum, (off + |pre|) / BSIZE, b) && st3 == st2.(data := st3.data)
    requires OtherSlots(st2.data, st2.inodes[inum], st3.data, st3.inodes[inum], NSLOTS)
    requires 0 < |chunk| && |pre| + |chunk| <= total && (off + |pre|) % BSIZE + |chunk| <= BSIZE
    requires |pre| + |chunk| < total ==> (off + |pre| + |chunk|) % BSIZE == 0
    ensures WroteSoFar(st0, st3, inum, off, pre + chunk, total)
  {
    var pos := off + |pre|;
    OpenPut(st0, st1, inum, off, pre, total);
    OpenGot(st1, o1, st2, o2, inum, pos / BSIZE, b);
    ToGoNext(st1.data, st1.inodes[inum], st3.data, st3.inodes[inum], pos, |chunk|, total - |pre|);
    if AllMapped(st0.data, st0.inodes[inum], off, total) { StillMapped(st0, st1, inum, off, pre, total); }
  }

  // writei's last step only sets the size.
  lemma FinishWrite(st0: St, st: St, st': St, inum: nat, off: nat, src: seq<Byte>, n: nat)
    requires Wrote(st0, st, inum, off, src) && off <= st0.inodes[inum].size && off + |src| <= MAXFILE * BSIZE
    requires n == if off + |src| > st0.inodes[inum].size then off + |src| else st0.inodes[inum].size
    requires st' == if n > st0.inodes[inum].size then Resized(st, inum, n) else st
    ensures st'.inodes.Keys == st0.inodes.Keys && OthersSame(st0, st', inum)
    ensures st'.inodes[inum] == st0.inodes[inum].(size := n, addrs := st'.inodes[inum].addrs)
    ensures Overlaid(st0.data, st0.inodes[inum], st'.data, st'.inodes[inum], off, src)
    ensures NoHoles(st0.data, st0.inodes[inum]) ==> NoHoles(st'.data, st'.inodes[inum])
  {
    OpenWrote(st0, st, inum, off, src);
    var ip := st.inodes[inum].(size := n);
    OverlaidSize(st0.data, st0.inodes[inum], st.data, st.inodes[inum], n, off, src);
    if NoHoles(st0.data, st0.inodes[inum]) {
      MappedSize(st.data, st.inodes[inum], n, off, |src|);
      GrownNoHoles(st0.data, st0.inodes[inum], st.data, ip, off, |src|);
    }
  }

  lemma MappedSize(data: Disk, ip: Inode, n: nat, off: nat, m: nat)
    requires AllMapped(data, ip, off, m)
    ensures AllMapped(data, ip.(size := n), off, m)
  {
    forall bn | 0 <= bn < MAXFILE && Spans(off, m, bn)
      ensures Mapped(data, ip.(size := n), bn)
    {
      assert Mapped(data, ip, bn);
    }
  }

  lemma OverlaidSize(data0: Disk, ip0: Inode, data: Disk, ip: Inode, n: nat, off: nat, src: seq<Byte>)
    requires Overlaid(data0, ip0, data, ip, off, src)
    ensures Overlaid(data0, ip0, data, ip.(size := n), off, src)
    ensures KeepsBlocks(data0, ip0, data, ip) ==> KeepsBlocks(data0, ip0, data, ip.(size := n))
  {
    forall k | 0 <= k < MAXFILE * BSIZE
      ensures ByteAt(data, ip.(size := n), k) == ByteAt(data, ip, k)
    {
      assert Addr(data, ip.(size := n), SlotOf(k / BSIZE)) == Addr(data, ip, SlotOf(k / BSIZE));
    }
  }

  lemma OverlayTwice(data0: Disk, ip0: Inode, data1: Disk, ip1: Inode, data2: Disk, ip2: Inode, off: nat,
                     src: seq<Byte>, chunk: seq<Byte>)
    requires Overlaid(data0, ip0, data1, ip1, off, src) && Overlaid(data1, ip1, data2, ip2, off + |src|, chunk)
    ensures Overlaid(data0, ip0, data2, ip2, off, src + chunk)
  {
  }

  function Min(a: nat, b: nat): nat {
    if a < b then a else b
  }

  lemma Regroup(pre: seq<Byte>, left: seq<Byte>, m: nat)
    requires m <= |left|
    ensures (pre + left[..m]) + left[m..] == pre + left
  {
  }

  lemma InBlock(off: nat, j: nat)
    requires off % BSIZE + j < BSIZE
    ensures (off + j) / BSIZE == off / BSIZE && (off + j) % BSIZE == off % BSIZE + j
  {
  }

  ghost predicate SizesOk(inodes: map<nat, Inode>) {
    forall i | i in inodes :: inodes[i].size <= MAXFILE * BSIZE
  }

  // Changing an inode without its block numbers changes no slot and no contents.
  lemma SameAddrs(st: St, st': St, owner: map<nat, Owner>)
    requires Inv(st, owner, 0, {}) && st' == st.(inodes := st'.inodes) && st'.inodes.Keys == st.inodes.Keys
    requires forall i | i in st.inodes :: st'.inodes[i].addrs == st.inodes[i].addrs
    ensures Inv(st', owner, 0, {})
  {
    forall i | i in st.inodes
      ensures InodeOk(st'.data, st'.inodes[i])
      ensures forall s | 0 <= s < NSLOTS :: Addr(st'.data, st'.inodes[i], s) == Addr(st.data, st.inodes[i], s)
    {
      assert InodeOk(st.data, st.inodes[i]);
    }
    forall i, s | i in st'.inodes && 0 <= s < NSLOTS
      ensures SlotOk(st', owner, i, s)
    {
      assert SlotOk(st, owner, i, s);
    }
    forall b | 0 <= b < st.size
      ensures BlockOk(st', owner, b)
    {
      assert BlockOk(st, owner, b);
    }
  }

  ghost predicate Blank(ip: Inode) {
    |ip.addrs| == NDIRECT + 1 && ip.size == 0 && forall s | 0 <= s <= NDIRECT :: ip.addrs[s] == 0
  }

  lemma FreshDisk(st: St, owner: map<nat, Owner>, nmeta: nat)
    requires 0 < nmeta <= st.size <= 0x1_0000_0000 && Covers(st.bitmap, st.size)
    requires forall i | i in st.inodes :: Blank(st.inodes[i])
    requires forall b | 0 <= b < st.size :: b in st.data && b in owner && (Used(st.bitmap, b) <==> b < nmeta)
    requires forall b | 0 <= b < st.size :: owner[b] == if b < nmeta then Reserved else Free
    ensures Good(st, owner, 0, {}) && SizesOk(st.inodes)
  {
    forall i, s | i in st.inodes && 0 <= s < NSLOTS
      ensures InodeOk(st.data, st.inodes[i]) && SlotOk(st, owner, i, s)
    {
      assert Blank(st.inodes[i]);
    }
    assert forall b | 0 <= b < st.size :: BlockOk(st, owner, b);
    Pack(st, owner, 0, {});
  }

  class Fs {
    var size: nat
    var bitmap: seq<BitBlock>
    var data: Disk
    var inodes: map<nat, Inode>    // in memory
    var dinodes: map<nat, Inode>   // on disk
    ghost var owner: map<nat, Owner>

    ghost function State(): St
      reads this
    {
      St(size, bitmap, data, inodes)
    }

    // In the middle of an operation a block may be allocated and not yet in a slot.
    ghost predicate Allocating()
      reads this
    {
      Good(State(), owner, 0, {}) && SizesOk(inodes) && (forall b | b in owner :: b < size)
    }

    ghost predicate Valid()
      reads this
    {
      Allocating() && NoFresh(owner)
    }

    // Blocks that balloc can still hand out.
    ghost function Clear(): nat
      requires Covers(bitmap, size)
      reads this
    {
      ClearBits(bitmap, size)
    }

    /** mkfs: the blocks below nmeta (boot, super, log, inodes, bitmap) are marked, every inode is free. */
    constructor (n: nat, nmeta: nat, ninodes: nat)
      requires 0 < nmeta <= n <= 0x1_0000_0000 && nmeta < BPB
      ensures Valid() && size == n && dinodes == inodes
      ensures forall b | 0 <= b < n :: b in owner && owner[b] == if b < nmeta then Reserved else Free
      ensures forall i :: i in inodes <==> 0 <= i < ninodes
      ensures forall i | i in inodes :: inodes[i] == Inode(0, 0, 0, seq(NDIRECT + 1, _ => 0))
    {
      size := n;
      var bm := MarkFirst(n / BPB + 1, nmeta);
      bitmap := bm;
      data := map b | b in Low(n) :: Zeros();
      inodes := map i | i in Low(ninodes) :: Inode(0, 0, 0, seq(NDIRECT + 1, _ => 0));
      dinodes := inodes;
      owner := map b | b in Low(n) :: if b < nmeta then Reserved else Free;
      new;
      FreshDisk(State(), owner, nmeta);
    }

    // balloc, with the bzero of the new block.
    method Balloc() returns (r: Option<nat>)
      requires Valid()
      modifies this`bitmap, this`data, this`owner
      ensures r.None? ==> unchanged(this)
      ensures r.None? <==> old(forall b | 0 <= b < size :: Used(bitmap, b))
      ensures r.None? <==> old(Clear()) == 0
      ensures r.Some? ==> Covers(bitmap, size) && Clear() == old(Clear()) - 1
      ensures r.Some? ==> Allocating() && SameFiles(old(State()), State())
      ensures r.Some? ==> 0 < r.value < size && !old(Used(bitmap, r.value))
      ensures r.Some? ==> data == old(data)[r.value := Zeros()] && owner == old(owner)[r.value := Fresh]
      ensures r.Some? ==> r.value in old(owner) && old(owner[r.value]) == Free
      ensures r.Some? ==> MoreUsed(size, old(bitmap), bitmap) && Used(bitmap, r.value)
      ensures r.Some? ==> forall i | i in inodes :: OtherSlots(old(data), inodes[i], data, inodes[i], NSLOTS)
    {
      Unpack(State(), owner, 0, {});
      ghost var st := State();
      NoClearBits(bitmap, size);
      var bm;
      r, bm := Bitmap.Alloc(bitmap, size);
      if r.None? { return; }
      OneLessClear(bitmap, bm, size, r.value);
      var b := r.value;
      ghost var st' := st.(bitmap := bm, data := st.data[b := Zeros()]);
      AllocStep(st, st', owner, b);
      AllocSameFiles(st, st', owner, b);
      assert BlockOk(st, owner, b);
      bitmap := bm;
      data := data[b := Zeros()];
      owner := owner[b := Fresh];
      Pack(State(), owner, 0, {});
    }

    // A slot of ip that holds no block gets a fresh one.
    method FillDirect(inum: nat, s: nat) returns (r: Option<nat>)
      requires Valid() && inum in inodes && s <= NDIRECT && inodes[inum].addrs[s] == 0
      modifies this`bitmap, this`data, this`owner, this`inodes
      ensures r.Some? ==> Valid() && Grew(old(State()), State(), inum) && 0 < r.value < size
      ensures r.Some? ==> inodes[inum].addrs == old(inodes[inum].addrs)[s := r.value]
      ensures r.Some? ==> OtherSlots(old(data), old(inodes[inum]), data, inodes[inum], s)
      ensures r.Some? ==> owner == old(owner)[r.value := Slot(inum, s)] && Used(bitmap, r.value)
      ensures r.Some? ==> !old(Used(bitmap, r.value))
      ensures r.None? <==> old(Clear()) == 0
      ensures r.Some? ==> Clear() == old(Clear()) - 1
    {
      ghost var st0 := State();
      r := Balloc();
      if r.None? { return; }
      Unpack(State(), owner, 0, {});
      ghost var st1 := State();
      var ip := inodes[inum];
      assert OtherSlots(st0.data, ip, data, ip, NSLOTS);
      inodes := inodes[inum := ip.(addrs := ip.addrs[s := r.value])];
      FilledSlot(st0, st1, State(), owner, inum, s, r.value);
      owner := owner[r.value := Slot(inum, s)];
    }

    // An entry of ip's table that holds no block gets a fresh one.
    method FillIndirect(inum: nat, j: nat) returns (r: Option<nat>)
      requires Valid() && inum in inodes && j < NINDIRECT && inodes[inum].addrs[NDIRECT] != 0
      requires Addr(data, inodes[inum], NDIRECT + 1 + j) == 0
      modifies this`bitmap, this`data, this`owner
      ensures r.Some? ==> Valid() && Grew(old(State()), State(), inum) && 0 < r.value < size
      ensures r.Some? ==> Addr(data, inodes[inum], NDIRECT + 1 + j) == r.value
      ensures r.Some? ==> owner == old(owner)[r.value := Slot(inum, NDIRECT + 1 + j)]
      ensures r.Some? ==> Used(bitmap, r.value) && !old(Used(bitmap, r.value))
      ensures r.None? <==> old(Clear()) == 0
      ensures r.Some? ==> Clear() == old(Clear()) - 1
      ensures r.Some? ==> OtherSlots(old(data), inodes[inum], data, inodes[inum], NDIRECT + 1 + j)
    {
      ghost var st0 := State();
      r := Balloc();
      if r.None? { return; }
      Unpack(State(), owner, 0, {});
      var t := inodes[inum].addrs[NDIRECT];
      FilledEntry(st0, State(), owner, inum, j, r.value);
      data := data[t := PutWord(data[t], j, r.value)];
      owner := owner[r.value := Slot(inum, NDIRECT + 1 + j)];
      Pack(State(), owner, 0, {});
    }

    // fs.c:369-370: the table of indirect blocks exists.
    method NeedTable(inum: nat) returns (ok: bool)
      requires Valid() && inum in inodes
      modifies this`bitmap, this`data, this`owner, this`inodes
      ensures old(inodes[inum].addrs[NDIRECT]) != 0 ==> ok && unchanged(this)
      ensures ok ==> Valid() && Grew(old(State()), State(), inum) && inodes[inum].addrs[NDIRECT] != 0
      ensures ok ==> OtherSlots(old(data), old(inodes[inum]), data, inodes[inum], NDIRECT)
      ensures ok <==> old(inodes[inum].addrs[NDIRECT] != 0 || Clear() > 0)
      ensures ok ==> Clear() == old(Clear()) - if old(inodes[inum].addrs[NDIRECT]) == 0 then 1 else 0
    {
      Unpack(State(), owner, 0, {});
      GrewSame(State(), owner, inum);
      if inodes[inum].addrs[NDIRECT] == 0 {
        var r := FillDirect(inum, NDIRECT);
        return r.Some?;
      }
      return true;
    }

    // fs.c:371-377: entry j of the table holds a block.
    method NeedEntry(inum: nat, j: nat) returns (r: Option<nat>)
      requires Valid() && inum in inodes && j < NINDIRECT && inodes[inum].addrs[NDIRECT] != 0
      modifies this`bitmap, this`data, this`owner
      ensures old(Addr(data, inodes[inum], NDIRECT + 1 + j)) != 0 ==> r.Some? && unchanged(this)
      ensures r.Some? ==> Valid() && Grew(old(State()), State(), inum)
      ensures r.Some? ==> 0 < r.value < size && r.value == Addr(data, inodes[inum], NDIRECT + 1 + j)
      ensures r.Some? ==> r.value in owner && owner[r.value] == Slot(inum, NDIRECT + 1 + j) && Used(bitmap, r.value)
      ensures r.Some? && old(Addr(data, inodes[inum], NDIRECT + 1 + j)) == 0 ==> !old(Used(bitmap, r.value))
      ensures r.None? <==> old(Addr(data, inodes[inum], NDIRECT + 1 + j) == 0 && Clear() == 0)
      ensures r.Some? ==> Clear() == old(Clear()) - if old(Addr(data, inodes[inum], NDIRECT + 1 + j)) == 0 then 1 else 0
      ensures r.Some? ==> OtherSlots(old(data), inodes[inum], data, inodes[inum], NDIRECT + 1 + j)
    {
      Unpack(State(), owner, 0, {});
      GrewSame(State(), owner, inum);
      var t := inodes[inum].addrs[NDIRECT];
      var a := Word(data[t], j);
      if a == 0 {
        r := FillIndirect(inum, j);
      } else {
        assert SlotOk(State(), owner, inum, NDIRECT + 1 + j) && BlockOk(State(), owner, a);
        r := Some(a);
      }
    }

    // fs.c:360-364.
    method NeedDirect(inum: nat, bn: nat) returns (r: Option<nat>)
      requires Valid() && inum in inodes && bn < NDIRECT
      modifies this`bitmap, this`data, this`owner, this`inodes
      ensures old(inodes[inum].addrs[bn]) != 0 ==> r.Some? && unchanged(this)
      ensures r.Some? ==> Valid() && Grew(old(State()), State(), inum)
      ensures r.Some? ==> 0 < r.value < size && r.value == inodes[inum].addrs[bn]
      ensures r.Some? ==> r.value in owner && owner[r.value] == Slot(inum, bn) && Used(bitmap, r.value)
      ensures r.Some? && old(inodes[inum].addrs[bn]) == 0 ==> !old(Used(bitmap, r.value))
      ensures r.None? <==> old(Clear() < Needs(data, inodes[inum], bn))
      ensures r.Some? ==> Clear() == old(Clear() - Needs(data, inodes[inum], bn))
      ensures r.Some? ==> Fills(old(data), old(inodes[inum]), data, inodes[inum], bn)
    {
      Unpack(State(), owner, 0, {});
      GrewSame(State(), owner, inum);
      var a := inodes[inum].addrs[bn];
      if a == 0 {
        r := FillDirect(inum, bn);
      } else {
        assert SlotOk(State(), owner, inum, bn) && BlockOk(State(), owner, a);
        r := Some(a);
      }
    }

    // fs.c:365-378.
    method NeedIndirect(inum: nat, j: nat) returns (r: Option<nat>)
      requires Valid() && inum in inodes && j < NINDIRECT
      modifies this`bitmap, this`data, this`owner, this`inodes
      ensures old(Addr(data, inodes[inum], NDIRECT + 1 + j)) != 0 ==> r.Some? && unchanged(this)
      ensures r.Some? ==> Valid() && Grew(old(State()), State(), inum)
      ensures r.Some? ==> 0 < r.value < size && r.value == Addr(data, inodes[inum], NDIRECT + 1 + j)
      ensures r.Some? ==> r.value in owner && owner[r.value] == Slot(inum, NDIRECT + 1 + j) && Used(bitmap, r.value)
      ensures r.Some? && old(Addr(data, inodes[inum], NDIRECT + 1 + j)) == 0 ==> !old(Used(bitmap, r.value))
      ensures r.None? <==> old(Clear() < Needs(data, inodes[inum], NDIRECT + j))
      ensures r.Some? ==> Clear() == old(Clear() - Needs(data, inodes[inum], NDIRECT + j))
      ensures r.Some? ==> Fills(old(data), old(inodes[inum]), data, inodes[inum], NDIRECT + j)
    {
      ghost var st0 := State();
      var ok := NeedTable(inum);
      if !ok { return None; }
      ghost var st1 := State();
      r := NeedEntry(inum, j);
      OpenGrew(st0, st1, inum);
      if r.Some? { GrewTrans(st0, st1, State(), inum); }
    }

    /** bmap: the block that holds block bn of the file, allocated if there was none.  No file's
        contents change, and nothing changes at all if the block was there. */
    method Bmap(inum: nat, bn: nat) returns (r: Option<nat>)
      requires Valid() && inum in inodes
      modifies this`bitmap, this`data, this`owner, this`inodes
      ensures old(Mapped(data, inodes[inum], bn)) ==> r.Some? && unchanged(this)
      ensures r.Some? ==> Valid() && GotBlock(old(State()), old(owner), State(), owner, inum, bn, r.value)
      ensures r.Some? ==> 0 < r.value < size && r.value == Addr(data, inodes[inum], SlotOf(bn))
      ensures r.Some? ==> r.value in owner && owner[r.value] == Slot(inum, SlotOf(bn)) && Used(bitmap, r.value)
      ensures r.None? <==> bn >= MAXFILE || old(Clear() < Needs(data, inodes[inum], bn))
    {
      if bn < NDIRECT {
        r := NeedDirect(inum, bn);
      } else if bn - NDIRECT < NINDIRECT {
        r := NeedIndirect(inum, bn - NDIRECT);
      } else {
        r := None;
      }
    }

    // One round of readi's loop: m bytes from off, all in one block.
    method ReadChunk(inum: nat, off: nat, m: nat) returns (ok: bool, more: seq<Byte>, ghost b: nat)
      requires Valid() && inum in inodes && 0 < m && off % BSIZE + m <= BSIZE && off + m <= MAXFILE * BSIZE
      modifies this`bitmap, this`data, this`owner, this`inodes
      ensures ok ==> Valid() && GotBlock(old(State()), old(owner), State(), owner, inum, off / BSIZE, b)
      ensures ok ==> |more| == m && Reads(data, inodes[inum], off, more)
      ensures off / BSIZE < MAXFILE && (ok <==> old(Clear() >= Needs(data, inodes[inum], off / BSIZE)))
    {
      var r := Bmap(inum, off / BSIZE);
      if r.None? { return false, [], 0; }
      Unpack(State(), owner, 0, {});
      SliceReads(State(), owner, inum, off, m, r.value);
      return true, data[r.value][off % BSIZE..off % BSIZE + m], r.value;
    }

    /** readi: the bytes of the file from off, as many as asked for and present.  Contents never
        change; blocks are allocated exactly when one of those read was missing. */
    method Readi(inum: nat, off: nat, n: nat) returns (r: Io<seq<Byte>>)
      requires Valid() && inum in inodes && off < TWO32 && n < TWO32
      modifies this`bitmap, this`data, this`owner, this`inodes
      ensures r.Device? <==> old(inodes[inum].typ) == T_DEV
      ensures r.Err? <==> old(inodes[inum].typ != T_DEV && (off > inodes[inum].size || (off + n) % TWO32 < off))
      ensures r.Device? || r.Err? ==> unchanged(this)
      ensures !r.Device? && !r.Err? ==> off <= old(inodes[inum].size)
      ensures r.Done? ==> Valid() && Grew(old(State()), State(), inum)
      ensures r.Done? ==> |r.value| == Min(n, old(inodes[inum].size) - off)
      ensures r.Done? ==> old(InodeOk(data, inodes[inum])) && Reads(old(data), old(inodes[inum]), off, r.value)
      ensures !r.Device? && !r.Err? && old(AllMapped(data, inodes[inum], off, Min(n, inodes[inum].size - off))) ==>
        r.Done? && unchanged(this)
      ensures r.Done? ==>
        (SameUsed(size, old(bitmap), bitmap) <==>
            old(AllMapped(data, inodes[inum], off, Min(n, inodes[inum].size - off))))
      ensures r.Panic? <==> old(inodes[inum].typ != T_DEV && off <= inodes[inum].size && (off + n) % TWO32 >= off
        && Clear() < ToGo(data, inodes[inum], off, Min(n, inodes[inum].size - off)))
    {
      var ip := inodes[inum];
      if ip.typ == T_DEV { return Device; }
      if off > ip.size || (off + n) % TWO32 < off { return Err; }
      var count := n;
      if off + n > ip.size { count := ip.size - off; }
      r := ReadLoop(inum, off, count);
    }

    // fs.c:449-461.
    method ReadLoop(inum: nat, off: nat, count: nat) returns (r: Io<seq<Byte>>)
      requires Valid() && inum in inodes && off + count <= MAXFILE * BSIZE
      modifies this`bitmap, this`data, this`owner, this`inodes
      ensures r.Done? || r.Panic?
      ensures r.Done? ==> Valid() && Grew(old(State()), State(), inum)
      ensures r.Done? ==> |r.value| == count && Reads(old(data), old(inodes[inum]), off, r.value)
      ensures old(AllMapped(data, inodes[inum], off, count)) ==> r.Done? && unchanged(this)
      ensures r.Done? ==> (SameUsed(size, old(bitmap), bitmap) <==> old(AllMapped(data, inodes[inum], off, count)))
      ensures r.Panic? <==> old(Clear() < ToGo(data, inodes[inum], off, count))
    {
      ghost var st0, owner0 := State(), owner;
      Unpack(State(), owner, 0, {});
      ReadNothing(st0, owner, inum, off, count);
      var got: seq<Byte> := [];
      while |got| < count
        invariant Valid() && Reading(st0, owner0, inum, off, got, count)
        invariant |got| < count ==> |got| == 0 || (off + |got|) % BSIZE == 0
      {
        var m := ChunkSize(off + |got|, count - |got|);
        var ok, more := ReadMore(inum, off, got, off + |got|, m, count, st0, owner0);
        if !ok { return Panic; }
        got := got + more;
      }
      ReadAll(st0, owner0, State(), owner, inum, off, got);
      return Done(got);
    }

    // What the loop has done so far, starting from state st0.
    ghost predicate Reading(st0: St, owner0: map<nat, Owner>, inum: nat, off: nat, got: seq<Byte>, count: nat)
      reads this
    {
      ReadSoFar(st0, owner0, State(), owner, inum, off, got, count)
    }

    method ReadMore(inum: nat, ghost off: nat, ghost got: seq<Byte>, pos: nat, m: nat, ghost count: nat,
                    ghost st0: St, ghost owner0: map<nat, Owner>)
      returns (ok: bool, more: seq<Byte>)
      requires Valid() && inum in inodes && pos == off + |got| && Reading(st0, owner0, inum, off, got, count)
      requires 0 < m && |got| + m <= count && pos % BSIZE + m <= BSIZE && (|got| == 0 || pos % BSIZE == 0)
      requires |got| + m < count ==> (pos + m) % BSIZE == 0
      modifies this`bitmap, this`data, this`owner, this`inodes
      ensures ok ==> Valid() && |more| == m && Reading(st0, owner0, inum, off, got + more, count)
      ensures !ok ==> Slack(st0, inum, off, count) < 0 && !AllMapped(st0.data, st0.inodes[inum], off, count)
    {
      ghost var st1, owner1 := State(), owner;
      ghost var b;
      ok, more, b := ReadChunk(inum, pos, m);
      if ok {
        ReadingStep(st0, owner0, st1, owner1, State(), owner, inum, off, pos, got, more, count, b);
      } else {
        ReadStuck(st0, owner0, st1, owner1, inum, off, got, count);
      }
    }

    // One round of writei's loop (fs.c:485-489), with `pre` already written from off.
    method WriteMore(inum: nat, ghost off: nat, ghost pre: seq<Byte>, pos: nat, chunk: seq<Byte>, ghost total: nat,
                     ghost st0: St)
      returns (ok: bool, ghost done: seq<Byte>)
      requires Valid() && inum in inodes && pos == off + |pre| && WroteSoFar(st0, State(), inum, off, pre, total)
      requires 0 < |chunk| && pos % BSIZE + |chunk| <= BSIZE && (|pre| == 0 || pos % BSIZE == 0)
      requires |pre| + |chunk| <= total && (|pre| + |chunk| < total ==> (pos + |chunk|) % BSIZE == 0)
      modifies this`bitmap, this`data, this`owner, this`inodes
      ensures done == pre + chunk && (ok ==> Valid() && WroteSoFar(st0, State(), inum, off, done, total))
      ensures !ok ==> Slack(st0, inum, off, total) < 0 && !AllMapped(st0.data, st0.inodes[inum], off, total)
    {
      ghost var st1, owner1 := State(), owner;
      done := pre + chunk;
      OpenPut(st0, st1, inum, off, pre, total);
      var r := Bmap(inum, pos / BSIZE);
      if r.None? {
        PutStuck(st0, st1, inum, off, pre, total);
        return false, done;
      }
      ghost var st2, owner2 := State(), owner;
      WroteGrew(st0, st1, st2, inum, off, pre);
      PutChunk(inum, off, pre, r.value, pos, chunk, st0);
      PutMore(st0, st1, owner1, st2, owner2, State(), inum, off, pre, chunk, total, r.value);
      return true, done;
    }

    // memmove(bp->data + off%BSIZE, src, m); log_write(bp)
    method PutChunk(inum: nat, ghost off: nat, ghost pre: seq<Byte>, b: nat, pos: nat, chunk: seq<Byte>, ghost st0: St)
      requires Valid() && inum in inodes && pos == off + |pre| && pos + |chunk| <= MAXFILE * BSIZE
      requires 0 < |chunk| && pos % BSIZE + |chunk| <= BSIZE && (|pre| == 0 || pos % BSIZE == 0)
      requires Wrote(st0, State(), inum, off, pre)
      requires 0 < b < size && b == Addr(data, inodes[inum], SlotOf(pos / BSIZE))
      modifies this`data
      ensures Valid() && Wrote(st0, State(), inum, off, pre + chunk)
      ensures OtherSlots(old(data), inodes[inum], data, inodes[inum], NSLOTS)
    {
      Unpack(State(), owner, 0, {});
      assert BlockOk(State(), owner, b) && SlotOk(State(), owner, inum, SlotOf(pos / BSIZE));
      WroteChunk(st0, State(), owner, inum, off, pre, b, chunk);
      WriteStep(State(), owner, b, Patch(data[b], pos % BSIZE, chunk));
      data := data[b := Patch(data[b], pos % BSIZE, chunk)];
      Pack(State(), owner, 0, {});
    }

    // fs.c:484-490.
    method WriteLoop(inum: nat, off: nat, src: seq<Byte>) returns (ok: bool)
      requires Valid() && inum in inodes && off + |src| <= MAXFILE * BSIZE
      modifies this`bitmap, this`data, this`owner, this`inodes
      ensures ok ==> Valid() && Wrote(old(State()), State(), inum, off, src)
      ensures old(AllMapped(data, inodes[inum], off, |src|)) ==> ok && inodes == old(inodes)
      ensures ok <==> old(Clear() >= ToGo(data, inodes[inum], off, |src|))
    {
      ghost var st0 := State();
      Unpack(State(), owner, 0, {});
      PutNothing(st0, owner, inum, off, |src|);
      ghost var pre: seq<Byte> := [];
      var pos, left := off, src;
      while |left| > 0
        invariant Valid() && WroteSoFar(st0, State(), inum, off, pre, |src|)
        invariant pre + left == src && pos == off + |pre|
        invariant |left| > 0 ==> |pre| == 0 || pos % BSIZE == 0
        decreases |left|
      {
        var m := ChunkSize(pos, |left|);
        ghost var done;
        ok, done := WriteMore(inum, off, pre, pos, left[..m], |src|, st0);
        if !ok { return; }
        Regroup(pre, left, m);
        pre := done;
        pos, left := pos + m, left[m..];
      }
      assert pre == src;
      PutAll(st0, State(), inum, off, src);
      return true;
    }

    // iupdate: the in-memory inode is copied to the disk.
    method Iupdate(inum: nat)
      requires inum in inodes
      modifies this`dinodes
      ensures dinodes == old(dinodes)[inum := inodes[inum]]
    {
      dinodes := dinodes[inum := inodes[inum]];
    }

    // The size in the in-memory inode is no part of the block bookkeeping.
    method SetSize(inum: nat, n: nat)
      requires Valid() && inum in inodes && n <= MAXFILE * BSIZE
      modifies this`inodes
      ensures Valid() && State() == Resized(old(State()), inum, n)
    {
      Unpack(State(), owner, 0, {});
      ghost var st := State();
      inodes := inodes[inum := inodes[inum].(size := n)];
      SameAddrs(st, State(), owner);
      Pack(State(), owner, 0, {});
    }

    /** writei: the file becomes its old contents with src laid over them from off, growing to
        cover it; every other file is unchanged.  If the disk copy of the inode was up to date
        and the file had no holes, both still hold, although iupdate runs only on growth. */
    method Writei(inum: nat, off: nat, src: seq<Byte>) returns (r: Io<nat>)
      requires Valid() && inum in inodes && off < TWO32 && |src| < TWO32
      modifies this`bitmap, this`data, this`owner, this`inodes, this`dinodes
      ensures r.Device? <==> old(inodes[inum].typ) == T_DEV
      ensures r.Err? <==> old(inodes[inum].typ != T_DEV
        && (off > inodes[inum].size || (off + |src|) % TWO32 < off || off + |src| > MAXFILE * BSIZE))
      ensures r.Panic? <==> old(inodes[inum].typ != T_DEV && off <= inodes[inum].size && (off + |src|) % TWO32 >= off
        && off + |src| <= MAXFILE * BSIZE && Clear() < ToGo(data, inodes[inum], off, |src|))
      ensures r.Device? || r.Err? ==> unchanged(this)
      ensures r.Done? ==> Valid() && r.value == |src| && inodes.Keys == old(inodes.Keys)
      ensures r.Done? ==> OthersSame(old(State()), State(), inum)
      ensures r.Done? ==> Overlaid(old(data), old(inodes[inum]), data, inodes[inum], off, src)
      ensures r.Done? ==>
        inodes[inum].size == if |src| > 0 && off + |src| > old(inodes[inum].size) then off + |src|
            else old(inodes[inum].size)
      ensures r.Done? ==> inodes[inum] == old(inodes[inum]).(size := inodes[inum].size, addrs := inodes[inum].addrs)
      ensures r.Done? ==> forall i | i != inum && i in dinodes :: i in old(dinodes) && dinodes[i] == old(dinodes[i])
      ensures r.Done? && old(NoHoles(data, inodes[inum])) ==> NoHoles(data, inodes[inum])
      ensures r.Done? && old(NoHoles(data, inodes[inum]) && inum in dinodes && dinodes[inum] == inodes[inum]) ==>
        inum in dinodes && dinodes[inum] == inodes[inum]
    {
      var ip := inodes[inum];
      if ip.typ == T_DEV { return Device; }
      if off > ip.size || (off + |src|) % TWO32 < off { return Err; }
      if off + |src| > MAXFILE * BSIZE { return Err; }
      var ok := WriteBody(inum, off, src);
      return if ok then Done(|src|) else Panic;
    }

    // fs.c:484-495.
    method WriteBody(inum: nat, off: nat, src: seq<Byte>) returns (ok: bool)
      requires Valid() && inum in inodes && off <= inodes[inum].size && off + |src| <= MAXFILE * BSIZE
      modifies this`bitmap, this`data, this`owner, this`inodes, this`dinodes
      ensures ok ==> Valid() && inodes.Keys == old(inodes.Keys)
      ensures ok ==> OthersSame(old(State()), State(), inum)
      ensures ok ==> Overlaid(old(data), old(inodes[inum]), data, inodes[inum], off, src)
      ensures ok ==> inodes[inum] == old(inodes[inum]).(size := inodes[inum].size, addrs := inodes[inum].addrs)
      ensures ok ==> inodes[inum].size == if |src| > 0 && off + |src| > old(inodes[inum].size) then off + |src|
          else old(inodes[inum].size)
      ensures ok ==> dinodes == if inodes[inum].size > old(inodes[inum].size)
          then old(dinodes)[inum := inodes[inum]] else old(dinodes)
      ensures ok && old(NoHoles(data, inodes[inum])) ==> NoHoles(data, inodes[inum])
      ensures ok && old(NoHoles(data, inodes[inum])) && inodes[inum].size == old(inodes[inum].size) ==>
          inodes[inum] == old(inodes[inum])
      ensures ok <==> old(Clear() >= ToGo(data, inodes[inum], off, |src|))
    {
      ghost var st0 := State();
      if NoHoles(data, inodes[inum]) && off + |src| <= inodes[inum].size {
        NoHolesHere(data, inodes[inum], off, |src|);
      }
      ok := WriteLoop(inum, off, src);
      if !ok { return; }
      ghost var st1 := State();
      var grow := |src| > 0 && off + |src| > inodes[inum].size;
      if grow {
        SetSize(inum, off + |src|);
        Iupdate(inum);
      }
      FinishWrite(st0, st1, State(), inum, off, src, inodes[inum].size);
    }

    // In the middle of itrunc of inode t, with the blocks in the slots `gone` given back.
    ghost predicate Truncating(t: nat, gone: set<nat>, owner0: map<nat, Owner>)
      reads this
    {
      && t in inodes && Good(State(), owner, t, gone) && Freed(owner0, owner, t, gone) && NoFresh(owner)
      && (forall b | b in owner :: b < size)
    }

    /** bfree of the block in slot s of the inode being truncated: it is marked in use, so
        "freeing free block" is not reached. */
    method DropBlock(t: nat, s: nat, b: nat, ghost gone: set<nat>, ghost owner0: map<nat, Owner>)
      requires Truncating(t, gone, owner0) && s < NSLOTS && s !in gone && b == Addr(data, inodes[t], s) != 0
      modifies this`bitmap, this`owner
      ensures Truncating(t, gone + {s}, owner0)
    {
      Unpack(State(), owner, t, gone);
      assert SlotOk(State(), owner, t, s) && BlockOk(State(), owner, b);
      ghost var st := State();
      var ok, bm := Bitmap.Release(bitmap, b);
      assert ok;
      ReleaseStep(st, st.(bitmap := bm), owner, t, gone, s, b);
      ReleaseFreed(st, owner0, owner, t, gone, s, b);
      bitmap := bm;
      owner := owner[b := Free];
      Pack(State(), owner, t, gone + {s});
    }

    // Storing block numbers of 0 in the slots that have been given back.
    method ClearAddrs(t: nat, addrs: seq<nat>, ghost gone: set<nat>, ghost owner0: map<nat, Owner>)
      requires Truncating(t, gone, owner0) && InodeOk(data, inodes[t].(addrs := addrs))
      requires forall s | 0 <= s < NSLOTS && s !in gone ::
          Addr(data, inodes[t].(addrs := addrs), s) == Addr(data, inodes[t], s)
      modifies this`inodes
      ensures Truncating(t, gone, owner0) && inodes == old(inodes)[t := old(inodes[t]).(addrs := addrs)]
    {
      Unpack(State(), owner, t, gone);
      ghost var st := State();
      assert forall b | b in owner && b < size && owner[b].Slot? && owner[b].inum == t :: owner[b].s !in gone;
      inodes := inodes[t := inodes[t].(addrs := addrs)];
      ClearStep(st, State(), owner, t, gone);
      Pack(State(), owner, t, gone);
    }

    // Give back the direct block in slot i, if there is one.
    method DropSlot(t: nat, i: nat, ghost gone: set<nat>, ghost owner0: map<nat, Owner>)
      requires Truncating(t, gone, owner0) && i < NDIRECT && i !in gone
      modifies this`bitmap, this`owner, this`inodes
      ensures Truncating(t, gone + {i}, owner0)
      ensures inodes == old(inodes)[t := old(inodes[t]).(addrs := old(inodes[t].addrs)[i := 0])]
    {
      if inodes[t].addrs[i] != 0 {
        DropBlock(t, i, inodes[t].addrs[i], gone, owner0);
        ClearAddrs(t, inodes[t].addrs[i := 0], gone + {i}, owner0);
      } else {
        Unpack(State(), owner, t, gone);
        SkipStep(State(), owner0, owner, t, gone, i);
        Pack(State(), owner, t, gone + {i});
        assert inodes[t].addrs[i := 0] == inodes[t].addrs;
      }
    }

    // fs.c:396-401.
    method DropDirect(t: nat, ghost owner0: map<nat, Owner>) returns (ghost gone: set<nat>)
      requires Truncating(t, {}, owner0)
      modifies this`bitmap, this`owner, this`inodes
      ensures Truncating(t, gone, owner0)
      ensures forall s :: s in gone <==> 0 <= s < NDIRECT
      ensures t in inodes && inodes == old(inodes)[t := old(inodes[t]).(addrs := inodes[t].addrs)]
      ensures |inodes[t].addrs| == NDIRECT + 1 && inodes[t].addrs[NDIRECT] == old(inodes[t].addrs[NDIRECT])
      ensures forall s | 0 <= s < NDIRECT :: inodes[t].addrs[s] == 0
    {
      var i: nat := 0;
      while i < NDIRECT
        invariant 0 <= i <= NDIRECT && Truncating(t, Low(i), owner0)
        invariant Zeroed(old(inodes), inodes, t, i)
      {
        ghost var was := inodes;
        DropSlot(t, i, Low(i), owner0);
        ZeroedNext(old(inodes), was, inodes, t, i);
        i := i + 1;
      }
      assert i == NDIRECT;
      gone := Low(NDIRECT);
    }

    // fs.c:406-409: the blocks listed in the table.
    method DropEntries(t: nat, ghost gone0: set<nat>, ghost owner0: map<nat, Owner>) returns (ghost gone: set<nat>)
      requires Truncating(t, gone0, owner0) && inodes[t].addrs[NDIRECT] != 0
      requires forall s | s in gone0 :: s < NDIRECT
      modifies this`bitmap, this`owner
      ensures Truncating(t, gone, owner0)
      ensures forall s :: s in gone <==> s in gone0 || NDIRECT < s < NSLOTS
    {
      gone := gone0;
      var a := data[inodes[t].addrs[NDIRECT]];
      var j := 0;
      while j < NINDIRECT
        invariant 0 <= j <= NINDIRECT && Truncating(t, gone, owner0)
        invariant forall s :: s in gone <==> s in gone0 || NDIRECT < s < NDIRECT + 1 + j
      {
        var s := NDIRECT + 1 + j;
        if Word(a, j) != 0 {
          DropBlock(t, s, Word(a, j), gone, owner0);
        } else {
          Unpack(State(), owner, t, gone);
          SkipStep(State(), owner0, owner, t, gone, s);
          Pack(State(), owner, t, gone + {s});
        }
        gone := gone + {s};
        j := j + 1;
      }
    }

    // fs.c:403-412: the table's entries, then the table.
    method DropTable(t: nat, ghost gone0: set<nat>, ghost owner0: map<nat, Owner>) returns (ghost gone: set<nat>)
      requires Truncating(t, gone0, owner0) && inodes[t].addrs[NDIRECT] != 0
      requires forall s | s in gone0 :: s < NDIRECT
      modifies this`bitmap, this`owner, this`inodes
      ensures Truncating(t, gone, owner0)
      ensures inodes == old(inodes)[t := old(inodes[t]).(addrs := old(inodes[t].addrs)[NDIRECT := 0])]
    {
      gone := DropEntries(t, gone0, owner0);
      DropBlock(t, NDIRECT, inodes[t].addrs[NDIRECT], gone, owner0);
      gone := gone + {NDIRECT};
      ClearAddrs(t, inodes[t].addrs[NDIRECT := 0], gone, owner0);
    }

    // fs.c:396-413.
    method DropAll(t: nat, ghost owner0: map<nat, Owner>) returns (ghost gone: set<nat>)
      requires Truncating(t, {}, owner0)
      modifies this`bitmap, this`owner, this`inodes
      ensures Truncating(t, gone, owner0)
      ensures t in inodes && inodes == old(inodes)[t := old(inodes[t]).(addrs := inodes[t].addrs)]
      ensures |inodes[t].addrs| == NDIRECT + 1 && forall s | 0 <= s <= NDIRECT :: inodes[t].addrs[s] == 0
    {
      gone := DropDirect(t, owner0);
      if inodes[t].addrs[NDIRECT] != 0 {
        gone := DropTable(t, gone, owner0);
      }
    }

    /** itrunc: exactly the blocks in the inode's slots become free, the file is empty, and no
        other inode, block or owner changes. */
    method Itrunc(t: nat)
      requires Valid() && t in inodes
      modifies this`bitmap, this`owner, this`inodes, this`dinodes
      ensures Valid() && FreedAll(old(owner), owner, t)
      ensures t in inodes && inodes == old(inodes)[t := old(inodes[t]).(size := 0, addrs := inodes[t].addrs)]
      ensures |inodes[t].addrs| == NDIRECT + 1 && forall s | 0 <= s <= NDIRECT :: inodes[t].addrs[s] == 0
      ensures dinodes == old(dinodes)[t := inodes[t]]
    {
      Unpack(State(), owner, 0, {});
      NothingGone(State(), owner, t);
      Pack(State(), owner, t, {});
      ghost var owner0 := owner;
      ghost var gone := DropAll(t, owner0);
      Unpack(State(), owner, t, gone);
      TruncDone(State(), owner, t, gone);
      FreedEverything(State(), owner0, owner, t, gone);
      Pack(State(), owner, 0, {});
      SetSize(t, 0);
      Iupdate(t);
    }
  }
}
