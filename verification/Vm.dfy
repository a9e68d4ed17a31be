/** Physical pages, page tables and who owns which page (vm.c:41-89, 222-299, 316-344; kalloc.c:20-95).

    A page is 1024 words.  A 32-bit word is given by the fields a page-table entry has: 20 bits of page number, 11
    bits of flags and the present bit.  A user virtual page is given by its directory index r and its table index
    x. */
module Paging {

  const ENTRIES: nat := 1024
  const USER: nat := 512          // directory entries below KERNBASE
  const LIMIT: nat := 0xE000      // PHYSTOP in pages

  // A page number, the low bits other than PTE_P, and PTE_P.
  datatype Word = Word(ppn: nat, flags: nat, p: bool)
  const ZERO: Word := Word(0, 0, false)
  const PTE_W: nat := 2
  const PTE_U: nat := 4
  const WU: nat := PTE_W + PTE_U

  type Page = s: seq<Word> | |s| == ENTRIES witness seq(ENTRIES, _ => ZERO)
  type Memory = map<nat, Page>

  // Held: taken from the free list and in no address space.
  datatype Owner = Free | Held | Dir | Table(d: nat, r: nat) | Leaf(d: nat, r: nat, x: nat)

  // `head` is the first free page, 0 for none; `fl` lists them all.
  datatype St = St(mem: Memory, head: nat, fl: seq<nat>, owner: map<nat, Owner>)

  function Zeros(): (s: Page)
    ensures forall i | 0 <= i < ENTRIES :: s[i] == ZERO
  {
    seq(ENTRIES, _ => ZERO)
  }

  // A freed page: junk, and in the first word the virtual address of the next free page.
  function Junk(next: nat): (s: Page)
    ensures Link(s) == next
  {
    seq(ENTRIES, i => if i == 0 then (if next == 0 then ZERO else Word(next + 0x80000, 0, false))
        else Word(0x1010, 0x100, true))
  }

  function Link(s: Page): nat {
    if s[0].ppn < 0x80000 then 0 else s[0].ppn - 0x80000
  }

  /* ---- an address space ---- */

  predicate IsDir(st: St, d: nat) {
    d in st.owner && d in st.mem && st.owner[d] == Dir
  }

  predicate HasTable(mem: Memory, d: nat, r: nat) {
    d in mem && r < ENTRIES && mem[d][r].p && mem[d][r].ppn in mem
  }

  function TableOf(mem: Memory, d: nat, r: nat): nat
    requires HasTable(mem, d, r)
  {
    mem[d][r].ppn
  }

  function Entry(mem: Memory, d: nat, r: nat, x: nat): Word
    requires HasTable(mem, d, r) && x < ENTRIES
  {
    mem[TableOf(mem, d, r)][x]
  }

  predicate Present(mem: Memory, d: nat, r: nat, x: nat) {
    HasTable(mem, d, r) && x < ENTRIES && Entry(mem, d, r, x).p
  }

  function Frame(mem: Memory, d: nat, r: nat, x: nat): nat
    requires Present(mem, d, r, x)
  {
    Entry(mem, d, r, x).ppn
  }

  /* ---- the invariant ---- */

  ghost predicate Chain(mem: Memory, head: nat, fl: seq<nat>)
    decreases |fl|
  {
    if fl == [] then head == 0 else head == fl[0] && head in mem && Chain(mem, Link(mem[head]), fl[1..])
  }

  ghost predicate FreeOk(st: St) {
    && Chain(st.mem, st.head, st.fl)
    && (forall i, j | 0 <= i < j < |st.fl| :: st.fl[i] != st.fl[j])
    && (forall p :: p in st.fl <==> p in st.owner && st.owner[p] == Free)
  }

  // A present directory entry names a page that is this entry's and nothing else's.
  ghost predicate TableOk(st: St, d: nat, r: nat)
    requires d in st.mem && r < ENTRIES
  {
    st.mem[d][r].p ==>
      st.mem[d][r].ppn in st.mem && st.mem[d][r].ppn in st.owner && st.owner[st.mem[d][r].ppn] == Table(d, r)
  }

  ghost predicate LeafOk(st: St, d: nat, r: nat, x: nat) {
    Present(st.mem, d, r, x) ==>
      var p := Frame(st.mem, d, r, x);
      p in st.mem && p in st.owner && st.owner[p] == Leaf(d, r, x)
  }

  // The directory d is being torn down and its first `gone` tables have been freed.
  ghost predicate PageOk(st: St, p: nat, d: nat, gone: nat)
    requires p in st.owner
  {
    match st.owner[p]
    case Table(e, r) => IsDir(st, e) && HasTable(st.mem, e, r) && TableOf(st.mem, e, r) == p && !(e == d && r < gone)
    case Leaf(e, r, x) => IsDir(st, e) && r < USER && Present(st.mem, e, r, x) && Frame(st.mem, e, r, x) == p
        && !(e == d && gone > 0)
    case _ => true
  }

  ghost predicate DirOk(st: St, e: nat, d: nat, gone: nat)
    requires e in st.mem
  {
    && (forall r | 0 <= r < ENTRIES && !(e == d && r < gone) :: TableOk(st, e, r))
    && ((e == d && gone > 0) || forall r, x | 0 <= r < USER && 0 <= x < ENTRIES :: LeafOk(st, e, r, x))
  }

  datatype Aspect = Range | List | Dirs | Owners

  ghost predicate Part(a: Aspect, st: St, d: nat, gone: nat) {
    match a
    case Range => forall p | p in st.mem :: 0 < p < LIMIT
    case List => FreeOk(st)
    case Dirs => forall e | IsDir(st, e) :: DirOk(st, e, d, gone)
    case Owners => forall p | p in st.owner :: PageOk(st, p, d, gone)
  }

  ghost predicate InvBut(st: St, d: nat, gone: nat) {
    st.owner.Keys == st.mem.Keys && 0 !in st.mem && forall a: Aspect :: Part(a, st, d, gone)
  }

  ghost predicate Facts(st: St, d: nat, gone: nat) {
    && st.owner.Keys == st.mem.Keys && 0 !in st.mem && (forall p | p in st.mem :: 0 < p < LIMIT)
    && FreeOk(st)
    && (forall e | IsDir(st, e) :: DirOk(st, e, d, gone))
    && (forall p | p in st.owner :: PageOk(st, p, d, gone))
  }

  lemma Unpack(st: St, d: nat, gone: nat)
    requires InvBut(st, d, gone)
    ensures Facts(st, d, gone)
  {
    assert Part(Range, st, d, gone) && Part(List, st, d, gone) && Part(Dirs, st, d, gone) && Part(Owners, st, d, gone);
  }

  lemma Pack(st: St, d: nat, gone: nat)
    requires Facts(st, d, gone)
    ensures InvBut(st, d, gone)
  {
  }

  /** Every page is free, or is one directory, or is one table of one directory, or backs one user page of one
      directory, or is held by the kernel; and the structures in memory say so. */
  ghost predicate Inv(st: St) {
    InvBut(st, 0, 0)
  }

  /* ---- the free list ---- */

  lemma {:induction false} ChainKept(mem: Memory, mem': Memory, head: nat, fl: seq<nat>)
    requires Chain(mem, head, fl) && forall p | p in fl :: p in mem && p in mem' && mem'[p] == mem[p]
    ensures Chain(mem', head, fl)
    decreases |fl|
  {
    if fl != [] {
      assert fl[0] in fl;
      ChainKept(mem, mem', Link(mem[head]), fl[1..]);
    }
  }

  // kalloc.
  lemma TakeStep(st: St)
    requires Inv(st) && st.head != 0
    ensures st.fl != [] && st.head in st.mem && st.head in st.owner && st.owner[st.head] == Free
    ensures Inv(St(st.mem, Link(st.mem[st.head]), st.fl[1..], st.owner[st.head := Held]))
  {
    Unpack(st, 0, 0);
    var p := st.head;
    var st' := St(st.mem, Link(st.mem[p]), st.fl[1..], st.owner[p := Held]);
    assert p == st.fl[0] && p in st.fl;
    assert forall q :: q in st.fl[1..] <==> q in st.fl && q != p by {
      assert st.fl == [p] + st.fl[1..];
    }
    forall e | IsDir(st', e)
      ensures DirOk(st', e, 0, 0)
    {
      assert IsDir(st, e) && DirOk(st, e, 0, 0);
      forall r | 0 <= r < ENTRIES ensures TableOk(st', e, r) { assert TableOk(st, e, r); }
      forall r, x | 0 <= r < USER && 0 <= x < ENTRIES ensures LeafOk(st', e, r, x) { assert LeafOk(st, e, r, x); }
    }
    forall q | q in st'.owner
      ensures PageOk(st', q, 0, 0)
    {
      assert PageOk(st, q, 0, 0);
    }
    Pack(st', 0, 0);
  }

  // kfree of a page that nothing refers to.
  lemma GiveStep(st: St, p: nat)
    requires Inv(st) && p in st.owner && st.owner[p] == Held
    ensures st.head < LIMIT && Inv(St(st.mem[p := Junk(st.head)], p, [p] + st.fl, st.owner[p := Free]))
  {
    Unpack(st, 0, 0);
    HeadInRange(st, 0, 0);
    var st' := St(st.mem[p := Junk(st.head)], p, [p] + st.fl, st.owner[p := Free]);
    GiveList(st, st', p);
    SameElsewhere(st, st', p);
  }

  lemma HeadInRange(st: St, d: nat, gone: nat)
    requires InvBut(st, d, gone)
    ensures st.head < LIMIT
  {
    Unpack(st, d, gone);
    if st.fl != [] { assert st.head in st.fl; }
  }

  lemma GiveList(st: St, st': St, p: nat)
    requires FreeOk(st) && st.head < LIMIT && p in st.owner && st.owner[p] != Free && st.owner.Keys == st.mem.Keys
    requires st'.mem == st.mem[p := Junk(st.head)] && st'.head == p && st'.fl == [p] + st.fl
    requires st'.owner == st.owner[p := Free]
    ensures FreeOk(st')
  {
    assert p !in st.fl;
    assert forall q | q in st.fl :: q in st.owner && q != p;
    ChainKept(st.mem, st'.mem, st.head, st.fl);
    assert st'.fl[1..] == st.fl;
  }

  // st' differs from st only in a page that is held, or was until now.
  ghost predicate OnlyHeld(st: St, st': St, p: nat) {
    && p in st.owner && st.owner[p] == Held && st'.mem.Keys == st.mem.Keys && st'.owner.Keys == st.owner.Keys
    && (st'.owner[p] == Held || st'.owner[p] == Free) && p in st.mem
    && forall q | q in st.mem && q in st.owner && q != p :: st'.mem[q] == st.mem[q] && st'.owner[q] == st.owner[q]
  }

  lemma HeldDir(st: St, st': St, p: nat, e: nat)
    requires OnlyHeld(st, st', p) && IsDir(st', e) && IsDir(st, e) && DirOk(st, e, 0, 0)
    ensures DirOk(st', e, 0, 0)
  {
    forall r | 0 <= r < ENTRIES ensures TableOk(st', e, r) { assert TableOk(st, e, r); }
    forall r, x | 0 <= r < USER && 0 <= x < ENTRIES
      ensures LeafOk(st', e, r, x)
    {
      assert LeafOk(st, e, r, x) && TableOk(st, e, r);
    }
  }

  lemma HeldPage(st: St, st': St, p: nat, q: nat)
    requires Inv(st) && OnlyHeld(st, st', p) && q in st.owner
    ensures PageOk(st', q, 0, 0)
  {
    Unpack(st, 0, 0);
    assert PageOk(st, q, 0, 0);
    if st.owner[q].Leaf? {
      assert DirOk(st, st.owner[q].d, 0, 0);
      assert TableOk(st, st.owner[q].d, st.owner[q].r);
    }
  }

  // Such a change leaves every address space as it was.
  lemma SameElsewhere(st: St, st': St, p: nat)
    requires Inv(st) && OnlyHeld(st, st', p) && FreeOk(st')
    ensures Inv(st')
  {
    Unpack(st, 0, 0);
    forall e | IsDir(st', e) ensures DirOk(st', e, 0, 0) { HeldDir(st, st', p, e); }
    forall q | q in st'.owner ensures PageOk(st', q, 0, 0) { HeldPage(st, st', p, q); }
    Pack(st', 0, 0);
  }

  // memset or memmove into a held page.
  lemma FillStep(st: St, p: nat, page: Page)
    requires Inv(st) && p in st.owner && st.owner[p] == Held
    ensures Inv(st.(mem := st.mem[p := page]))
  {
    Unpack(st, 0, 0);
    var st' := st.(mem := st.mem[p := page]);
    assert forall q | q in st.fl :: q in st.owner && q != p;
    ChainKept(st.mem, st'.mem, st.head, st.fl);
    SameElsewhere(st, st', p);
  }

  // Storing an entry of the table t of directory d.
  function WithEntry(mem: Memory, d: nat, r: nat, x: nat, w: Word): Memory
    requires HasTable(mem, d, r) && x < ENTRIES
  {
    mem[TableOf(mem, d, r) := mem[TableOf(mem, d, r)][x := w]]
  }

  lemma EntrySet(st: St, d: nat, r: nat, x: nat, w: Word, e: nat, u: nat, y: nat)
    requires Inv(st) && IsDir(st, d) && HasTable(st.mem, d, r) && x < ENTRIES && IsDir(st, e) && u < ENTRIES
    requires y < ENTRIES
    ensures var mem' := WithEntry(st.mem, d, r, x, w);
            && mem'[e] == st.mem[e] && HasTable(mem', e, u) == HasTable(st.mem, e, u)
            && (HasTable(mem', e, u) ==> TableOf(mem', e, u) == TableOf(st.mem, e, u))
            && (HasTable(mem', e, u) ==>
                Entry(mem', e, u, y) == if e == d && u == r && y == x then w else Entry(st.mem, e, u, y))
  {
    Unpack(st, 0, 0);
    assert DirOk(st, d, 0, 0) && DirOk(st, e, 0, 0);
    assert TableOk(st, d, r) && TableOk(st, e, u);
  }

  // mappages: an absent entry gets the held page p.
  lemma MapStep(st: St, d: nat, r: nat, x: nat, p: nat, flags: nat)
    requires Inv(st) && IsDir(st, d) && r < USER && x < ENTRIES && HasTable(st.mem, d, r) && !Present(st.mem, d, r, x)
    requires p in st.owner && st.owner[p] == Held
    ensures p < LIMIT
    ensures Inv(st.(mem := WithEntry(st.mem, d, r, x, Word(p, flags, true)), owner := st.owner[p := Leaf(d, r, x)]))
  {
    Unpack(st, 0, 0);
    var st' := st.(mem := WithEntry(st.mem, d, r, x, Word(p, flags, true)), owner := st.owner[p := Leaf(d, r, x)]);
    EntryStep(st, st', d, r, x, Word(p, flags, true), p);
  }

  // deallocuvm: a present entry is cleared and its page is held again.
  lemma UnmapStep(st: St, d: nat, r: nat, x: nat)
    requires Inv(st) && IsDir(st, d) && r < USER && Present(st.mem, d, r, x)
    ensures var p := Frame(st.mem, d, r, x);
            p in st.owner && st.owner[p] == Leaf(d, r, x)
                && Inv(st.(mem := WithEntry(st.mem, d, r, x, ZERO), owner := st.owner[p := Held]))
  {
    Unpack(st, 0, 0);
    var p := Frame(st.mem, d, r, x);
    assert DirOk(st, d, 0, 0);
    assert LeafOk(st, d, r, x);
    EntryStep(st, st.(mem := WithEntry(st.mem, d, r, x, ZERO), owner := st.owner[p := Held]), d, r, x, ZERO, p);
  }

  // Entry x of table r of d changes from absent to page p, which was held, or back.
  ghost predicate Swaps(st: St, st': St, d: nat, r: nat, x: nat, w: Word, p: nat) {
    && IsDir(st, d) && r < USER && x < ENTRIES && HasTable(st.mem, d, r) && p in st.owner
    && st' == st.(mem := WithEntry(st.mem, d, r, x, w), owner := st'.owner)
    && (|| (st.owner[p] == Held && !Present(st.mem, d, r, x) && w.p && w.ppn == p
            && st'.owner == st.owner[p := Leaf(d, r, x)])
        || (st.owner[p] == Leaf(d, r, x) && Present(st.mem, d, r, x) && Frame(st.mem, d, r, x) == p && !w.p
            && st'.owner == st.owner[p := Held]))
  }

  lemma EntryDir(st: St, st': St, d: nat, r: nat, x: nat, w: Word, p: nat, e: nat)
    requires Inv(st) && Swaps(st, st', d, r, x, w, p) && IsDir(st', e)
    ensures DirOk(st', e, 0, 0)
  {
    Unpack(st, 0, 0);
    assert IsDir(st, e) && DirOk(st, e, 0, 0);
    forall u | 0 <= u < ENTRIES
      ensures TableOk(st', e, u)
    {
      assert TableOk(st, e, u);
      EntrySet(st, d, r, x, w, e, u, 0);
    }
    forall u, y | 0 <= u < USER && 0 <= y < ENTRIES
      ensures LeafOk(st', e, u, y)
    {
      assert LeafOk(st, e, u, y);
      EntrySet(st, d, r, x, w, e, u, y);
    }
  }

  lemma EntryPage(st: St, st': St, d: nat, r: nat, x: nat, w: Word, p: nat, q: nat)
    requires Inv(st) && Swaps(st, st', d, r, x, w, p) && q in st'.owner
    ensures PageOk(st', q, 0, 0)
  {
    Unpack(st, 0, 0);
    assert PageOk(st, q, 0, 0);
    match st.owner[q] {
      case Table(e, u) => EntrySet(st, d, r, x, w, e, u, 0);
      case Leaf(e, u, y) => EntrySet(st, d, r, x, w, e, u, y);
      case _ => EntrySet(st, d, r, x, w, d, r, x);
    }
  }

  lemma EntryList(st: St, st': St, d: nat, r: nat, x: nat, w: Word, p: nat)
    requires Inv(st) && Swaps(st, st', d, r, x, w, p)
    ensures FreeOk(st')
  {
    Unpack(st, 0, 0);
    assert DirOk(st, d, 0, 0);
    assert TableOk(st, d, r);
    assert TableOf(st.mem, d, r) !in st.fl;
    ChainKept(st.mem, st'.mem, st.head, st.fl);
  }

  lemma EntryStep(st: St, st': St, d: nat, r: nat, x: nat, w: Word, p: nat)
    requires Inv(st) && Swaps(st, st', d, r, x, w, p)
    ensures Inv(st')
  {
    Unpack(st, 0, 0);
    EntryList(st, st', d, r, x, w, p);
    forall e | IsDir(st', e)
      ensures DirOk(st', e, 0, 0)
    {
      EntryDir(st, st', d, r, x, w, p, e);
    }
    forall q | q in st'.owner
      ensures PageOk(st', q, 0, 0)
    {
      EntryPage(st, st', d, r, x, w, p, q);
    }
    Pack(st', 0, 0);
  }

  // mappages in the kernel's half: no page changes hands.
  ghost predicate Stores(st: St, st': St, d: nat, r: nat, x: nat, w: Word) {
    && IsDir(st, d) && USER <= r < ENTRIES && x < ENTRIES && HasTable(st.mem, d, r)
    && st' == st.(mem := WithEntry(st.mem, d, r, x, w))
  }

  lemma StoreDir(st: St, st': St, d: nat, r: nat, x: nat, w: Word, e: nat)
    requires Inv(st) && Stores(st, st', d, r, x, w) && IsDir(st', e)
    ensures DirOk(st', e, 0, 0)
  {
    Unpack(st, 0, 0);
    assert IsDir(st, e) && DirOk(st, e, 0, 0);
    forall u | 0 <= u < ENTRIES
      ensures TableOk(st', e, u)
    {
      assert TableOk(st, e, u);
      EntrySet(st, d, r, x, w, e, u, 0);
    }
    forall u, y | 0 <= u < USER && 0 <= y < ENTRIES
      ensures LeafOk(st', e, u, y)
    {
      assert LeafOk(st, e, u, y);
      EntrySet(st, d, r, x, w, e, u, y);
    }
  }

  lemma StorePage(st: St, st': St, d: nat, r: nat, x: nat, w: Word, q: nat)
    requires Inv(st) && Stores(st, st', d, r, x, w) && q in st'.owner
    ensures PageOk(st', q, 0, 0)
  {
    Unpack(st, 0, 0);
    assert PageOk(st, q, 0, 0);
    match st.owner[q] {
      case Table(e, u) => EntrySet(st, d, r, x, w, e, u, 0);
      case Leaf(e, u, y) => EntrySet(st, d, r, x, w, e, u, y);
      case _ =>
    }
  }

  lemma StoreStep(st: St, st': St, d: nat, r: nat, x: nat, w: Word)
    requires Inv(st) && Stores(st, st', d, r, x, w)
    ensures Inv(st')
  {
    Unpack(st, 0, 0);
    assert DirOk(st, d, 0, 0);
    assert TableOk(st, d, r);
    assert TableOf(st.mem, d, r) !in st.fl;
    ChainKept(st.mem, st'.mem, st.head, st.fl);
    forall e | IsDir(st', e) ensures DirOk(st', e, 0, 0) { StoreDir(st, st', d, r, x, w, e); }
    forall q | q in st'.owner ensures PageOk(st', q, 0, 0) { StorePage(st, st', d, r, x, w, q); }
    Pack(st', 0, 0);
  }

  // setupkvm: a zeroed held page becomes a directory.
  lemma DirStep(st: St, st': St, d: nat)
    requires Inv(st) && d in st.owner && st.owner[d] == Held && st.mem[d] == Zeros()
    requires st' == st.(owner := st.owner[d := Dir])
    ensures Inv(st')
  {
    Unpack(st, 0, 0);
    forall e | IsDir(st', e)
      ensures DirOk(st', e, 0, 0)
    {
      if e != d {
        assert DirOk(st, e, 0, 0);
        forall r | 0 <= r < ENTRIES ensures TableOk(st', e, r) { assert TableOk(st, e, r); }
        forall r, x | 0 <= r < USER && 0 <= x < ENTRIES ensures LeafOk(st', e, r, x) { assert LeafOk(st, e, r, x); }
      }
    }
    forall q | q in st'.owner ensures PageOk(st', q, 0, 0) { assert PageOk(st, q, 0, 0); }
    Pack(st', 0, 0);
  }

  // All of a directory without user pages is forgotten, and stays taken.
  ghost predicate Forgets(st: St, st': St, d: nat) {
    && IsDir(st, d) && NoLeaves(st, d) && st'.mem == st.mem && st'.head == st.head && st'.fl == st.fl
    && st'.owner.Keys == st.owner.Keys
    && forall q | q in st.owner ::
         st'.owner[q] == if q == d || (st.owner[q].Table? && st.owner[q].d == d) then Held else st.owner[q]
  }

  lemma ForgetDir(st: St, st': St, d: nat, e: nat)
    requires Inv(st) && Forgets(st, st', d) && IsDir(st', e)
    ensures DirOk(st', e, 0, 0)
  {
    Unpack(st, 0, 0);
    assert IsDir(st, e) && DirOk(st, e, 0, 0);
    forall r | 0 <= r < ENTRIES ensures TableOk(st', e, r) { assert TableOk(st, e, r); }
    forall r, x | 0 <= r < USER && 0 <= x < ENTRIES ensures LeafOk(st', e, r, x) { assert LeafOk(st, e, r, x); }
  }

  lemma ForgetPage(st: St, st': St, d: nat, q: nat)
    requires Inv(st) && Forgets(st, st', d) && q in st'.owner
    ensures PageOk(st', q, 0, 0)
  {
    Unpack(st, 0, 0);
    assert PageOk(st, q, 0, 0);
  }

  lemma ForgetStep(st: St, st': St, d: nat)
    requires Inv(st) && Forgets(st, st', d)
    ensures Inv(st')
  {
    Unpack(st, 0, 0);
    forall e | IsDir(st', e) ensures DirOk(st', e, 0, 0) { ForgetDir(st, st', d, e); }
    forall q | q in st'.owner ensures PageOk(st', q, 0, 0) { ForgetPage(st, st', d, q); }
    Pack(st', 0, 0);
  }

  // Before kinit: no page is free yet, and none is in use.
  lemma BootInv(st: St)
    requires st.owner.Keys == st.mem.Keys && (forall p | p in st.mem :: 0 < p < LIMIT) && st.head == 0 && st.fl == []
    requires forall p | p in st.owner :: st.owner[p] == Held
    ensures Inv(st)
  {
    Pack(st, 0, 0);
  }

  // walkpgdir: a zeroed held page becomes table r of d.
  lemma TableStep(st: St, d: nat, r: nat, p: nat, flags: nat)
    requires Inv(st) && IsDir(st, d) && r < ENTRIES && !st.mem[d][r].p
    requires p in st.owner && st.owner[p] == Held && st.mem[p] == Zeros()
    ensures p < LIMIT
    ensures Inv(st.(mem := st.mem[d := st.mem[d][r := Word(p, flags, true)]], owner := st.owner[p := Table(d, r)]))
  {
    Unpack(st, 0, 0);
    var st' := st.(mem := st.mem[d := st.mem[d][r := Word(p, flags, true)]], owner := st.owner[p := Table(d, r)]);
    assert d !in st.fl;
    ChainKept(st.mem, st'.mem, st.head, st.fl);
    forall e | IsDir(st', e) ensures DirOk(st', e, 0, 0) { TableDir(st, st', d, r, p, e); }
    forall q | q in st'.owner ensures PageOk(st', q, 0, 0) { TablePage(st, st', d, r, p, q); }
    Pack(st', 0, 0);
  }

  lemma TableDir(st: St, st': St, d: nat, r: nat, p: nat, e: nat)
    requires Inv(st) && IsDir(st, d) && r < ENTRIES && !st.mem[d][r].p && p in st.owner && st.owner[p] == Held
    requires st.mem[p] == Zeros()
    requires st'.owner == st.owner[p := Table(d, r)] && st'.mem.Keys == st.mem.Keys && IsDir(st', e)
    requires st'.mem[d][r].p && st'.mem[d][r].ppn == p && st'.mem == st.mem[d := st.mem[d][r := st'.mem[d][r]]]
    ensures DirOk(st', e, 0, 0)
  {
    Unpack(st, 0, 0);
    assert IsDir(st, e) && DirOk(st, e, 0, 0);
    forall u | 0 <= u < ENTRIES ensures TableOk(st', e, u) { assert TableOk(st, e, u); }
    forall u, x | 0 <= u < USER && 0 <= x < ENTRIES
      ensures LeafOk(st', e, u, x)
    {
      assert LeafOk(st, e, u, x) && TableOk(st, e, u);
    }
  }

  lemma TablePage(st: St, st': St, d: nat, r: nat, p: nat, q: nat)
    requires Inv(st) && IsDir(st, d) && r < ENTRIES && !st.mem[d][r].p && p in st.owner && st.owner[p] == Held
    requires p < LIMIT
    requires st'.owner == st.owner[p := Table(d, r)] && st'.mem.Keys == st.mem.Keys && q in st'.owner
    requires st'.mem[d][r].p && st'.mem[d][r].ppn == p && st'.mem == st.mem[d := st.mem[d][r := st'.mem[d][r]]]
    ensures PageOk(st', q, 0, 0)
  {
    Unpack(st, 0, 0);
    assert PageOk(st, q, 0, 0);
    if st.owner[q].Leaf? {
      assert DirOk(st, st.owner[q].d, 0, 0);
      assert TableOk(st, st.owner[q].d, st.owner[q].r);
    }
  }

  /* ---- tearing a directory down ---- */

  // kfree of page t, whatever it was.
  ghost predicate Gives(st: St, st': St, t: nat) {
    st.head < LIMIT && t in st.mem && t in st.owner
        && st' == St(st.mem[t := Junk(st.head)], t, [t] + st.fl, st.owner[t := Free])
  }

  // All of d's user pages have been given back.
  ghost predicate NoLeaves(st: St, d: nat) {
    forall p | p in st.owner && st.owner[p].Leaf? :: st.owner[p].d != d
  }

  // d is a directory whose tables below g are back on the free list.
  ghost predicate Dying(st: St, d: nat, g: nat) {
    InvBut(st, d, g) && IsDir(st, d) && NoLeaves(st, d) && d != 0
  }

  // kfree of whatever page directory entry g names.
  lemma DropTable(st: St, d: nat, g: nat)
    requires Dying(st, d, g) && g < ENTRIES
    ensures st.head < LIMIT
    ensures st.mem[d][g].p ==> var t := st.mem[d][g].ppn;
              && t in st.owner && t != d && st.owner[t] == Table(d, g)
              && Dying(St(st.mem[t := Junk(st.head)], t, [t] + st.fl, st.owner[t := Free]), d, g + 1)
    ensures !st.mem[d][g].p ==> Dying(st, d, g + 1)
  {
    Unpack(st, d, g);
    HeadInRange(st, d, g);
    assert DirOk(st, d, d, g);
    assert TableOk(st, d, g);
    if st.mem[d][g].p {
      var t := st.mem[d][g].ppn;
      var st' := St(st.mem[t := Junk(st.head)], t, [t] + st.fl, st.owner[t := Free]);
      GiveList(st, st', t);
      DropDirs(st, st', d, g, t);
    } else {
      forall e | IsDir(st, e) ensures DirOk(st, e, d, g + 1) { assert DirOk(st, e, d, g); }
      forall q | q in st.owner ensures PageOk(st, q, d, g + 1) { assert PageOk(st, q, d, g); }
      Pack(st, d, g + 1);
    }
  }

  lemma DropDirs(st: St, st': St, d: nat, g: nat, t: nat)
    requires Dying(st, d, g) && g < ENTRIES && st.mem[d][g].p && t == st.mem[d][g].ppn && st.head < LIMIT
    requires t in st.owner && st.owner[t] == Table(d, g)
    requires st' == St(st.mem[t := Junk(st.head)], t, [t] + st.fl, st.owner[t := Free]) && FreeOk(st')
    ensures Dying(st', d, g + 1)
  {
    Unpack(st, d, g);
    forall e | IsDir(st', e)
      ensures DirOk(st', e, d, g + 1)
    {
      assert IsDir(st, e) && DirOk(st, e, d, g);
      forall u | 0 <= u < ENTRIES && !(e == d && u < g + 1) ensures TableOk(st', e, u) { assert TableOk(st, e, u); }
      forall u, x | e != d && 0 <= u < USER && 0 <= x < ENTRIES
        ensures LeafOk(st', e, u, x)
      {
        assert LeafOk(st, e, u, x) && TableOk(st, e, u);
      }
    }
    forall q | q in st'.owner ensures PageOk(st', q, d, g + 1) { DropPage(st, st', d, g, t, q); }
    Pack(st', d, g + 1);
  }

  lemma DropPage(st: St, st': St, d: nat, g: nat, t: nat, q: nat)
    requires Dying(st, d, g) && g < ENTRIES && st.mem[d][g].p && t == st.mem[d][g].ppn && st.head < LIMIT
    requires t in st.owner && st.owner[t] == Table(d, g) && q in st.owner
    requires st' == St(st.mem[t := Junk(st.head)], t, [t] + st.fl, st.owner[t := Free])
    ensures PageOk(st', q, d, g + 1)
  {
    Unpack(st, d, g);
    assert PageOk(st, q, d, g);
    if st.owner[q].Leaf? {
      assert DirOk(st, st.owner[q].d, d, g);
      assert TableOk(st, st.owner[q].d, st.owner[q].r);
    }
  }

  lemma DropDirOthers(st: St, st': St, d: nat, e: nat)
    requires Dying(st, d, ENTRIES) && Gives(st, st', d) && IsDir(st', e)
    ensures DirOk(st', e, 0, 0)
  {
    Unpack(st, d, ENTRIES);
    assert IsDir(st, e) && DirOk(st, e, d, ENTRIES);
    forall u | 0 <= u < ENTRIES ensures TableOk(st', e, u) { assert TableOk(st, e, u); }
    forall u, x | 0 <= u < USER && 0 <= x < ENTRIES
      ensures LeafOk(st', e, u, x)
    {
      assert LeafOk(st, e, u, x) && TableOk(st, e, u);
    }
  }

  lemma DropDirPage(st: St, st': St, d: nat, q: nat)
    requires Dying(st, d, ENTRIES) && Gives(st, st', d) && q in st'.owner
    ensures PageOk(st', q, 0, 0)
  {
    Unpack(st, d, ENTRIES);
    assert PageOk(st, q, d, ENTRIES);
    if st.owner[q].Leaf? {
      assert DirOk(st, st.owner[q].d, d, ENTRIES);
      assert TableOk(st, st.owner[q].d, st.owner[q].r);
    }
  }

  // kfree of the directory itself.
  lemma DropDir(st: St, st': St, d: nat)
    requires Dying(st, d, ENTRIES) && Gives(st, st', d)
    ensures Inv(st')
  {
    Unpack(st, d, ENTRIES);
    GiveList(st, st', d);
    forall e | IsDir(st', e) ensures DirOk(st', e, 0, 0) { DropDirOthers(st, st', d, e); }
    forall q | q in st'.owner ensures PageOk(st', q, 0, 0) { DropDirPage(st, st', d, q); }
    Pack(st', 0, 0);
  }

  lemma StartDying(st: St, d: nat)
    requires Inv(st) && IsDir(st, d) && NoLeaves(st, d)
    ensures Dying(st, d, 0)
  {
    Unpack(st, 0, 0);
    forall e | IsDir(st, e) ensures DirOk(st, e, d, 0) { assert DirOk(st, e, 0, 0); }
    forall q | q in st.owner ensures PageOk(st, q, d, 0) { assert PageOk(st, q, 0, 0); }
    Pack(st, d, 0);
  }

  /** No page backs two user pages, in one address space or in two. */
  lemma NoSharing(st: St, d: nat, r: nat, x: nat, e: nat, u: nat, y: nat)
    requires Inv(st) && IsDir(st, d) && IsDir(st, e) && r < USER && u < USER
    requires Present(st.mem, d, r, x) && Present(st.mem, e, u, y) && Frame(st.mem, d, r, x) == Frame(st.mem, e, u, y)
    ensures d == e && r == u && x == y
  {
    Unpack(st, 0, 0);
    assert DirOk(st, d, 0, 0) && DirOk(st, e, 0, 0);
    assert LeafOk(st, d, r, x) && LeafOk(st, e, u, y);
  }

  ghost function Owned(st: St): set<nat> {
    set q | q in st.owner && st.owner[q] != Free
  }

  ghost function Elements(fl: seq<nat>): set<nat> {
    set p | p in fl
  }

  lemma {:induction false} CountList(fl: seq<nat>)
    requires forall i, j | 0 <= i < j < |fl| :: fl[i] != fl[j]
    ensures |Elements(fl)| == |fl|
  {
    if fl == [] {
      assert Elements(fl) == {};
    } else {
      var k := |fl| - 1;
      CountList(fl[..k]);
      assert Elements(fl) == Elements(fl[..k]) + {fl[k]};
    }
  }

  /** The pages on the free list and the pages owned add up to all the pages there are. */
  lemma Conservation(st: St)
    requires Inv(st)
    ensures |st.fl| + |Owned(st)| == |st.mem|
  {
    Unpack(st, 0, 0);
    CountList(st.fl);
    assert Elements(st.fl) + Owned(st) == st.mem.Keys && Elements(st.fl) !! Owned(st);
    assert |st.mem.Keys| == |st.mem|;
  }

  /* ---- what a program sees ---- */

  datatype View = Absent | Mapped(frame: nat, flags: nat, page: Page)

  // Of the kernel's half, only where its pages are.
  function ViewAt(mem: Memory, d: nat, r: nat, x: nat): View {
    if !Present(mem, d, r, x) || (r < USER && Frame(mem, d, r, x) !in mem) then Absent
    else Mapped(Frame(mem, d, r, x), Entry(mem, d, r, x).flags, if r < USER then mem[Frame(mem, d, r, x)] else Zeros())
  }

  lemma PresentIff(st: St, d: nat, r: nat, x: nat)
    requires Inv(st) && IsDir(st, d) && r < ENTRIES && x < ENTRIES
    ensures Present(st.mem, d, r, x) <==> ViewAt(st.mem, d, r, x) != Absent
  {
    Unpack(st, 0, 0);
    assert DirOk(st, d, 0, 0);
    if r < USER { assert LeafOk(st, d, r, x); }
  }

  // The pages that entry (r, x) goes through are as they were.
  lemma SameView(mem: Memory, mem': Memory, e: nat, r: nat, x: nat)
    requires e in mem && mem'.Keys == mem.Keys && mem'[e] == mem[e] && r < ENTRIES && x < ENTRIES
    requires HasTable(mem, e, r) ==> mem'[TableOf(mem, e, r)] == mem[TableOf(mem, e, r)]
    requires r < USER && Present(mem, e, r, x) && Frame(mem, e, r, x) in mem ==>
               mem'[Frame(mem, e, r, x)] == mem[Frame(mem, e, r, x)]
    ensures ViewAt(mem', e, r, x) == ViewAt(mem, e, r, x)
  {
  }

  // Every address space of st looks the same in st'.
  ghost predicate SameViews(st: St, st': St) {
    && (forall e | IsDir(st, e) :: IsDir(st', e))
    && (forall e, r, x | IsDir(st, e) && 0 <= r < ENTRIES && 0 <= x < ENTRIES ::
        ViewAt(st'.mem, e, r, x) == ViewAt(st.mem, e, r, x))
  }

  // The same, but for user page (d, r, x).
  ghost predicate OneView(st: St, st': St, d: nat, r: nat, x: nat, v: View) {
    && (forall e | IsDir(st, e) :: IsDir(st', e))
    && (forall e, u, y | IsDir(st, e) && 0 <= u < ENTRIES && 0 <= y < ENTRIES ::
          ViewAt(st'.mem, e, u, y) == if e == d && u == r && y == x then v else ViewAt(st.mem, e, u, y))
  }

  // What changes hands is taken from the free pages for tables of d.
  ghost predicate OnlyTables(o: map<nat, Owner>, o': map<nat, Owner>, d: nat) {
    o'.Keys == o.Keys && forall q | q in o :: o'[q] == o[q] || (o[q] == Free && o'[q].Table? && o'[q].d == d)
  }

  // Every address space but d's looks the same.
  ghost predicate OthersSame(st: St, st': St, d: nat) {
    && (forall e | IsDir(st, e) && e != d :: IsDir(st', e))
    && (forall e, r, x | IsDir(st, e) && e != d && 0 <= r < ENTRIES && 0 <= x < ENTRIES ::
        ViewAt(st'.mem, e, r, x) == ViewAt(st.mem, e, r, x))
  }

  // Overwriting a page of d's own, its directory or a table, shows in no other address space.
  lemma OwnPage(st: St, st': St, d: nat, g: nat, t: nat)
    requires st.owner.Keys == st.mem.Keys && (forall e | IsDir(st, e) :: DirOk(st, e, d, g)) && IsDir(st, d)
    requires t in st.owner && (t == d || (st.owner[t].Table? && st.owner[t].d == d))
    requires st'.mem.Keys == st.mem.Keys && st'.owner.Keys == st.owner.Keys
    requires forall q | q in st.mem && q in st.owner && q != t :: st'.mem[q] == st.mem[q] && st'.owner[q] == st.owner[q]
    ensures OthersSame(st, st', d)
  {
    forall e, r, x | IsDir(st, e) && e != d && 0 <= r < ENTRIES && 0 <= x < ENTRIES
      ensures ViewAt(st'.mem, e, r, x) == ViewAt(st.mem, e, r, x)
    {
      assert DirOk(st, e, d, g);
      assert TableOk(st, e, r) && (r < USER ==> LeafOk(st, e, r, x));
      SameView(st.mem, st'.mem, e, r, x);
    }
  }

  // What has been taken and not mapped yet is still there.
  ghost predicate HeldKept(st: St, st': St) {
    forall p | p in st.owner && p in st.mem && st.owner[p] == Held ::
      p in st'.owner && p in st'.mem && st'.owner[p] == Held && st'.mem[p] == st.mem[p]
  }

  lemma HeldViews(st: St, st': St, p: nat)
    requires Inv(st) && OnlyHeld(st, st', p)
    ensures SameViews(st, st')
  {
    Unpack(st, 0, 0);
    forall e, r, x | IsDir(st, e) && 0 <= r < ENTRIES && 0 <= x < ENTRIES
      ensures ViewAt(st'.mem, e, r, x) == ViewAt(st.mem, e, r, x)
    {
      assert DirOk(st, e, 0, 0);
      assert TableOk(st, e, r) && (r < USER ==> LeafOk(st, e, r, x));
      SameView(st.mem, st'.mem, e, r, x);
    }
  }

  lemma TableViews(st: St, st': St, d: nat, r: nat, p: nat, flags: nat)
    requires Inv(st) && IsDir(st, d) && r < ENTRIES && !st.mem[d][r].p
    requires p in st.owner && st.owner[p] == Held && st.mem[p] == Zeros() && p < LIMIT
    requires st' == st.(mem := st.mem[d := st.mem[d][r := Word(p, flags, true)]], owner := st.owner[p := Table(d, r)])
    ensures SameViews(st, st')
  {
    Unpack(st, 0, 0);
    forall e, u, x | IsDir(st, e) && 0 <= u < ENTRIES && 0 <= x < ENTRIES
      ensures ViewAt(st'.mem, e, u, x) == ViewAt(st.mem, e, u, x)
    {
      assert DirOk(st, e, 0, 0);
      assert TableOk(st, e, u) && (u < USER ==> LeafOk(st, e, u, x));
      if e != d { SameView(st.mem, st'.mem, e, u, x); }
    }
  }

  lemma SwapViews(st: St, st': St, d: nat, r: nat, x: nat, w: Word, p: nat)
    requires Inv(st) && Swaps(st, st', d, r, x, w, p)
    ensures OneView(st, st', d, r, x, if w.p then Mapped(p, w.flags, st.mem[p]) else Absent)
  {
    Unpack(st, 0, 0);
    var v := if w.p then Mapped(p, w.flags, st.mem[p]) else Absent;
    assert DirOk(st, d, 0, 0);
    assert TableOk(st, d, r);
    forall e, u, y | IsDir(st, e) && 0 <= u < ENTRIES && 0 <= y < ENTRIES
      ensures ViewAt(st'.mem, e, u, y) == if e == d && u == r && y == x then v else ViewAt(st.mem, e, u, y)
    {
      assert DirOk(st, e, 0, 0);
      assert u < USER ==> LeafOk(st, e, u, y);
      EntrySet(st, d, r, x, w, e, u, y);
    }
  }

  lemma StoreViews(st: St, st': St, d: nat, r: nat, x: nat, w: Word)
    requires Inv(st) && Stores(st, st', d, r, x, w) && w.p
    ensures OneView(st, st', d, r, x, Mapped(w.ppn, w.flags, Zeros()))
  {
    Unpack(st, 0, 0);
    assert DirOk(st, d, 0, 0);
    assert TableOk(st, d, r);
    forall e, u, y | IsDir(st, e) && 0 <= u < ENTRIES && 0 <= y < ENTRIES
      ensures ViewAt(st'.mem, e, u, y) ==
              if e == d && u == r && y == x then Mapped(w.ppn, w.flags, Zeros()) else ViewAt(st.mem, e, u, y)
    {
      assert DirOk(st, e, 0, 0);
      assert u < USER ==> LeafOk(st, e, u, y);
      EntrySet(st, d, r, x, w, e, u, y);
    }
  }

  /* ---- deallocuvm's walk ---- */

  // The pages with a table that the loop from page a up to page n comes to.
  ghost function Visits(mem: Memory, d: nat, a: nat, n: nat): set<int>
    decreases n - a
  {
    if a >= n then {}
    else if HasTable(mem, d, a / ENTRIES) then {a} + Visits(mem, d, a + 1, n)
    else Visits(mem, d, a + ENTRIES, n)
  }

  // Without a table at a, the skip lands as far into the next table's range, and may do so repeatedly: w lies in
  // the first range with a table, before the place where the walk enters it.
  ghost predicate Missed(mem: Memory, d: nat, a: nat, w: nat) {
    w % ENTRIES < a % ENTRIES && forall r | a / ENTRIES <= r < w / ENTRIES :: !HasTable(mem, d, r)
  }

  lemma MissesNone(mem: Memory, d: nat, a: nat, w: nat)
    requires a <= w && HasTable(mem, d, a / ENTRIES)
    ensures !Missed(mem, d, a, w)
  {
    if a / ENTRIES == w / ENTRIES { assert a % ENTRIES <= w % ENTRIES; }
  }

  lemma MissedAfterSkip(mem: Memory, d: nat, a: nat, w: nat)
    requires a <= w && !HasTable(mem, d, a / ENTRIES) && HasTable(mem, d, w / ENTRIES)
    ensures a + ENTRIES <= w ==> (Missed(mem, d, a, w) <==> Missed(mem, d, a + ENTRIES, w))
    ensures w < a + ENTRIES ==> Missed(mem, d, a, w)
  {
    var r := a / ENTRIES;
    assert (a + ENTRIES) / ENTRIES == r + 1 && (a + ENTRIES) % ENTRIES == a % ENTRIES;
    assert w / ENTRIES >= r + 1;
    if w < a + ENTRIES {
      assert w / ENTRIES == r + 1 && w % ENTRIES < a % ENTRIES;
    }
  }

  lemma {:induction false} VisitsIff(mem: Memory, d: nat, a: nat, n: nat, w: nat)
    requires a <= w < n && HasTable(mem, d, w / ENTRIES)
    ensures w in Visits(mem, d, a, n) <==> !Missed(mem, d, a, w)
    decreases n - a
  {
    if HasTable(mem, d, a / ENTRIES) {
      MissesNone(mem, d, a, w);
      if a < w {
        VisitsIff(mem, d, a + 1, n, w);
        MissesNoneNext(mem, d, a, w);
      }
    } else {
      MissedAfterSkip(mem, d, a, w);
      if a + ENTRIES <= w {
        VisitsIff(mem, d, a + ENTRIES, n, w);
      } else {
        VisitsAhead(mem, d, a + ENTRIES, n, w);
      }
    }
  }

  lemma MissesNoneNext(mem: Memory, d: nat, a: nat, w: nat)
    requires a < w && HasTable(mem, d, a / ENTRIES)
    ensures !Missed(mem, d, a + 1, w)
  {
    if (a + 1) % ENTRIES != 0 {
      assert (a + 1) / ENTRIES == a / ENTRIES;
      MissesNone(mem, d, a + 1, w);
    }
  }

  lemma {:induction false} VisitsBelow(mem: Memory, d: nat, a: nat, n: nat, w: nat)
    requires w >= n
    ensures w !in Visits(mem, d, a, n)
    decreases n - a
  {
    if a < n {
      if HasTable(mem, d, a / ENTRIES) {
        VisitsBelow(mem, d, a + 1, n, w);
      } else {
        VisitsBelow(mem, d, a + ENTRIES, n, w);
      }
    }
  }

  lemma {:induction false} VisitsAhead(mem: Memory, d: nat, a: nat, n: nat, w: nat)
    requires w < a
    ensures w !in Visits(mem, d, a, n)
    decreases n - a
  {
    if a < n {
      if HasTable(mem, d, a / ENTRIES) {
        VisitsAhead(mem, d, a + 1, n, w);
      } else {
        VisitsAhead(mem, d, a + ENTRIES, n, w);
      }
    }
  }
}

/** kalloc, kfree, walkpgdir, mappages, allocuvm, deallocuvm, freevm and copyuvm.  Addresses of pages are page
    numbers. */
module Vm {
  import opened Paging

  const KERNBASE: nat := 0x8000_0000

  // Pages that sz bytes need.
  function Pages(sz: nat): nat {
    (sz + 4095) / 4096
  }

  // The present user pages of d are exactly its first n.
  ghost predicate Sized(mem: Memory, d: nat, n: nat) {
    forall r, x | 0 <= r < USER && 0 <= x < ENTRIES :: ViewAt(mem, d, r, x) != Absent <==> Vpn(r, x) < n
  }

  // Page p of entry (d, r, x) goes back to the free list and the entry is cleared.
  ghost function Dropped(st: St, d: nat, r: nat, x: nat): St
    requires Present(st.mem, d, r, x) && st.head < LIMIT
  {
    var p := Frame(st.mem, d, r, x);
    St(WithEntry(st.mem, d, r, x, ZERO)[p := Junk(st.head)], p, [p] + st.fl, st.owner[p := Free])
  }

  lemma DropFacts(st: St, d: nat, r: nat, x: nat)
    requires Inv(st) && IsDir(st, d) && r < USER && Present(st.mem, d, r, x)
    ensures st.head < LIMIT
    ensures var p, t := Frame(st.mem, d, r, x), TableOf(st.mem, d, r);
            p in st.mem && t in st.mem && p != t && p in st.owner && st.owner[p] == Leaf(d, r, x)
  {
    Unpack(st, 0, 0);
    HeadInRange(st, 0, 0);
    assert DirOk(st, d, 0, 0);
    assert LeafOk(st, d, r, x) && TableOk(st, d, r);
  }

  lemma ViewsTrans(st: St, st1: St, st2: St, d: nat, r: nat, x: nat, v: View)
    requires OneView(st, st1, d, r, x, v) && SameViews(st1, st2)
    ensures OneView(st, st2, d, r, x, v)
  {
  }

  lemma SetTwice<K, V>(m: map<K, V>, k: K, v: V, w: V)
    ensures m[k := v][k := w] == m[k := w]
  {
  }

  lemma DropStep(st: St, d: nat, r: nat, x: nat)
    requires Inv(st) && IsDir(st, d) && r < USER && Present(st.mem, d, r, x)
    ensures st.head < LIMIT && Inv(Dropped(st, d, r, x)) && OneView(st, Dropped(st, d, r, x), d, r, x, Absent)
  {
    DropFacts(st, d, r, x);
    var p := Frame(st.mem, d, r, x);
    var st1 := st.(mem := WithEntry(st.mem, d, r, x, ZERO), owner := st.owner[p := Held]);
    var st2 := St(st1.mem[p := Junk(st1.head)], p, [p] + st1.fl, st1.owner[p := Free]);
    UnmapStep(st, d, r, x);
    SwapViews(st, st1, d, r, x, ZERO, p);
    GiveStep(st1, p);
    HeldViews(st1, st2, p);
    ViewsTrans(st, st1, st2, d, r, x, Absent);
    SetTwice(st.owner, p, Held, Free);
  }

  // The virtual page number of user page (r, x).
  function Vpn(r: nat, x: nat): nat {
    r * ENTRIES + x
  }

  lemma VpnSplit(r: nat, x: nat)
    requires x < ENTRIES
    ensures Vpn(r, x) / ENTRIES == r && Vpn(r, x) % ENTRIES == x
  {
  }

  lemma PageBelow(a: nat, sz: nat)
    requires sz <= KERNBASE
    ensures a * 4096 < sz <==> a < Pages(sz)
    ensures a * 4096 < sz ==> a / ENTRIES < USER && Vpn(a / ENTRIES, a % ENTRIES) == a
  {
  }

  // The owner of a page once the user pages `seen` of d have been given back.
  ghost function GivenBack(o: Owner, d: nat, seen: set<int>): Owner {
    if o.Leaf? && o.d == d && Vpn(o.r, o.x) in seen then Free else o
  }

  ghost predicate FreedLeaves(o: map<nat, Owner>, o': map<nat, Owner>, d: nat, seen: set<int>) {
    o'.Keys == o.Keys && forall q | q in o :: o'[q] == GivenBack(o[q], d, seen)
  }

  ghost predicate Unmapped(st0: St, st: St, d: nat, seen: set<int>) {
    && (forall e | IsDir(st0, e) :: IsDir(st, e))
    && (forall e, r, x | IsDir(st0, e) && 0 <= r < ENTRIES && 0 <= x < ENTRIES ::
          ViewAt(st.mem, e, r, x) == if e == d && Vpn(r, x) in seen then Absent else ViewAt(st0.mem, e, r, x))
  }

  ghost predicate SameTables(mem: Memory, mem': Memory, d: nat) {
    forall u | 0 <= u < ENTRIES :: HasTable(mem', d, u) <==> HasTable(mem, d, u)
  }

  ghost predicate OtherTables(mem: Memory, mem': Memory, d: nat, r: nat) {
    forall u | 0 <= u < ENTRIES && u != r :: HasTable(mem', d, u) <==> HasTable(mem, d, u)
  }

  // From st0 to st, the user pages `seen` of d have been given back, and nothing else has changed.
  ghost predicate Cleared(st0: St, st: St, d: nat, seen: set<int>) {
    && IsDir(st0, d) && Unmapped(st0, st, d, seen) && FreedLeaves(st0.owner, st.owner, d, seen)
        && SameTables(st0.mem, st.mem, d)
  }

  lemma SameVpn(r: nat, x: nat, u: nat, y: nat)
    requires x < ENTRIES && y < ENTRIES
    ensures Vpn(r, x) == Vpn(u, y) <==> r == u && x == y
  {
  }

  lemma ClearViews(st0: St, st: St, st': St, d: nat, r: nat, x: nat, seen: set<int>)
    requires Unmapped(st0, st, d, seen) && OneView(st, st', d, r, x, Absent) && r < USER && x < ENTRIES
    ensures Unmapped(st0, st', d, seen + {Vpn(r, x)})
  {
    forall e, u, y | IsDir(st0, e) && 0 <= u < ENTRIES && 0 <= y < ENTRIES
      ensures ViewAt(st'.mem, e, u, y) == if e == d && Vpn(u, y) in seen + {Vpn(r, x)} then Absent
          else ViewAt(st0.mem, e, u, y)
    {
      SameVpn(r, x, u, y);
    }
  }

  lemma ClearOwner(st0: St, st: St, st': St, d: nat, r: nat, x: nat, p: nat, seen: set<int>, q: nat)
    requires q in st0.owner && q in st.owner && q in st'.owner && PageOk(st0, q, 0, 0) && PageOk(st', q, 0, 0)
    requires x < ENTRIES
    requires st.owner[q] == GivenBack(st0.owner[q], d, seen)
    requires st'.owner[q] == if q == p then Free else st.owner[q]
    requires !Present(st'.mem, d, r, x) && (q == p ==> st.owner[q] == Leaf(d, r, x))
    ensures st'.owner[q] == GivenBack(st0.owner[q], d, seen + {Vpn(r, x)})
  {
    if st0.owner[q].Leaf? { SameVpn(st0.owner[q].r, st0.owner[q].x, r, x); }
  }

  // p is the page given back, or 0.
  lemma ClearOwners(st0: St, st: St, st': St, d: nat, r: nat, x: nat, p: nat, seen: set<int>)
    requires FreedLeaves(st0.owner, st.owner, d, seen) && x < ENTRIES
    requires (forall q | q in st0.owner :: PageOk(st0, q, 0, 0)) && (forall q | q in st'.owner :: PageOk(st', q, 0, 0))
    requires st'.owner.Keys == st.owner.Keys
    requires forall q | q in st.owner :: st'.owner[q] == if q == p then Free else st.owner[q]
    requires p in st.owner ==> st.owner[p] == Leaf(d, r, x)
    requires !Present(st'.mem, d, r, x)
    ensures FreedLeaves(st0.owner, st'.owner, d, seen + {Vpn(r, x)})
  {
    forall q | q in st0.owner
      ensures st'.owner[q] == GivenBack(st0.owner[q], d, seen + {Vpn(r, x)})
    {
      assert PageOk(st0, q, 0, 0) && PageOk(st', q, 0, 0);
      ClearOwner(st0, st, st', d, r, x, p, seen, q);
    }
  }

  // Storing an entry of a table moves no table.
  lemma SetSameTables(st: St, d: nat, r: nat, x: nat, w: Word)
    requires Inv(st) && IsDir(st, d) && HasTable(st.mem, d, r) && x < ENTRIES
    ensures SameTables(st.mem, WithEntry(st.mem, d, r, x, w), d)
  {
    forall u | 0 <= u < ENTRIES
      ensures HasTable(WithEntry(st.mem, d, r, x, w), d, u) <==> HasTable(st.mem, d, u)
    {
      EntrySet(st, d, r, x, w, d, u, 0);
    }
  }

  // Afterwards the tables are where they were.
  lemma DropTables(st: St, d: nat, r: nat, x: nat, u: nat)
    requires Inv(st) && IsDir(st, d) && r < USER && Present(st.mem, d, r, x) && st.head < LIMIT && u < ENTRIES
    ensures HasTable(Dropped(st, d, r, x).mem, d, u) <==> HasTable(st.mem, d, u)
  {
    Unpack(st, 0, 0);
    assert DirOk(st, d, 0, 0);
    assert LeafOk(st, d, r, x) && TableOk(st, d, r) && TableOk(st, d, u);
  }

  lemma DropSameTables(st: St, d: nat, r: nat, x: nat)
    requires Inv(st) && IsDir(st, d) && r < USER && Present(st.mem, d, r, x) && st.head < LIMIT
    ensures SameTables(st.mem, Dropped(st, d, r, x).mem, d)
  {
    Unpack(st, 0, 0);
    forall u | 0 <= u < ENTRIES
      ensures HasTable(Dropped(st, d, r, x).mem, d, u) <==> HasTable(st.mem, d, u)
    {
      DropTables(st, d, r, x, u);
    }
  }

  lemma ClearPresent(st0: St, st: St, st': St, d: nat, r: nat, x: nat, seen: set<int>, p: nat)
    requires (forall q | q in st0.owner :: PageOk(st0, q, 0, 0)) && (forall q | q in st'.owner :: PageOk(st', q, 0, 0))
    requires IsDir(st0, d) && r < USER && x < ENTRIES && !Present(st'.mem, d, r, x)
    requires FreedLeaves(st0.owner, st.owner, d, seen) && p in st.owner && st.owner[p] == Leaf(d, r, x)
    requires st'.owner == st.owner[p := Free]
    requires SameTables(st0.mem, st.mem, d) && SameTables(st.mem, st'.mem, d)
    requires Unmapped(st0, st', d, seen + {Vpn(r, x)})
    ensures Cleared(st0, st', d, seen + {Vpn(r, x)})
  {
    ClearOwners(st0, st, st', d, r, x, p, seen);
  }

  lemma ClearAbsent(st0: St, st: St, d: nat, r: nat, x: nat, seen: set<int>)
    requires Inv(st0) && Inv(st) && Cleared(st0, st, d, seen) && r < USER && x < ENTRIES && !Present(st.mem, d, r, x)
    ensures Cleared(st0, st, d, seen + {Vpn(r, x)})
  {
    Unpack(st0, 0, 0);
    Unpack(st, 0, 0);
    ClearViews(st0, st, st, d, r, x, seen);
    ClearOwners(st0, st, st, d, r, x, 0, seen);
  }

  // One entry of a table that exists.
  lemma ClearStep(st0: St, st: St, d: nat, r: nat, x: nat, seen: set<int>)
    requires Inv(st0) && Inv(st) && Cleared(st0, st, d, seen) && r < USER && x < ENTRIES && HasTable(st.mem, d, r)
    ensures Present(st.mem, d, r, x) ==> st.head < LIMIT && Inv(Dropped(st, d, r, x))
    ensures Present(st.mem, d, r, x) ==> Cleared(st0, Dropped(st, d, r, x), d, seen + {Vpn(r, x)})
    ensures !Present(st.mem, d, r, x) ==> Cleared(st0, st, d, seen + {Vpn(r, x)})
  {
    if Present(st.mem, d, r, x) {
      DropStep(st, d, r, x);
      DropFacts(st, d, r, x);
      DropSameTables(st, d, r, x);
      PresentIff(Dropped(st, d, r, x), d, r, x);
      Unpack(st0, 0, 0);
      Unpack(Dropped(st, d, r, x), 0, 0);
      ClearViews(st0, st, Dropped(st, d, r, x), d, r, x, seen);
      ClearPresent(st0, st, Dropped(st, d, r, x), d, r, x, seen, Frame(st.mem, d, r, x));
    } else {
      ClearAbsent(st0, st, d, r, x, seen);
    }
  }

  // Page p becomes user page (d, r, x), and pages may become tables of d.
  ghost predicate Takes(o: map<nat, Owner>, o': map<nat, Owner>, d: nat, r: nat, x: nat, p: nat) {
    && o'.Keys == o.Keys && p in o && o'[p] == Leaf(d, r, x)
    && forall q | q in o && q != p :: o'[q] == o[q] || (o[q] == Free && o'[q].Table? && o'[q].d == d)
  }

  lemma ViewsTransTwo(st: St, st1: St, st2: St, d: nat, r: nat, x: nat, v: View)
    requires SameViews(st, st1) && OneView(st1, st2, d, r, x, v)
    ensures OneView(st, st2, d, r, x, v)
  {
  }

  lemma TakesAfter(o: map<nat, Owner>, o1: map<nat, Owner>, d: nat, r: nat, x: nat, p: nat)
    requires OnlyTables(o, o1, d) && p in o
    ensures Takes(o, o1[p := Leaf(d, r, x)], d, r, x, p)
  {
  }

  // mappages once the table is there.
  lemma MappedStep(st0: St, st: St, d: nat, r: nat, x: nat, p: nat, flags: nat)
    requires Inv(st) && IsDir(st, d) && r < USER && x < ENTRIES && HasTable(st.mem, d, r)
    requires ViewAt(st.mem, d, r, x) == Absent
    requires SameViews(st0, st) && p in st.owner && p in st.mem && st.owner[p] == Held
    ensures var st' := st.(mem := WithEntry(st.mem, d, r, x, Word(p, flags, true)),
        owner := st.owner[p := Leaf(d, r, x)]);
            Inv(st') && OneView(st0, st', d, r, x, Mapped(p, flags, st.mem[p]))
  {
    Unpack(st, 0, 0);
    var w := Word(p, flags, true);
    var st' := st.(mem := WithEntry(st.mem, d, r, x, w), owner := st.owner[p := Leaf(d, r, x)]);
    PresentIff(st, d, r, x);
    MapStep(st, d, r, x, p, flags);
    assert OneView(st0, st', d, r, x, Mapped(p, flags, st.mem[p])) by {
      SwapViews(st, st', d, r, x, w, p);
      ViewsTransTwo(st0, st, st', d, r, x, Mapped(p, flags, st.mem[p]));
    }
  }

  // walkpgdir's new table: zeroed, then entered in the directory.
  lemma NewTable(st: St, d: nat, r: nat, t: nat)
    requires Inv(st) && IsDir(st, d) && r < ENTRIES && !st.mem[d][r].p && t in st.owner && st.owner[t] == Held
    ensures t != d && t < LIMIT
    ensures var st2 := St(st.mem[t := Zeros()][d := st.mem[d][r := Word(t, WU, true)]], st.head, st.fl,
        st.owner[t := Table(d, r)]);
            Inv(st2) && SameViews(st, st2)
  {
    Unpack(st, 0, 0);
    var st1 := st.(mem := st.mem[t := Zeros()]);
    FillStep(st, t, Zeros());
    HeldViews(st, st1, t);
    TableStep(st1, d, r, t, WU);
    TableViews(st1, st1.(mem := st1.mem[d := st1.mem[d][r := Word(t, WU, true)]],
        owner := st1.owner[t := Table(d, r)]), d, r, t, WU);
  }

  /* ---- adding pages ---- */

  // A page of the wanted contents and flags, in a frame that was free.
  ghost predicate NewPage(st0: St, v: View, want: View) {
    v.Mapped? && want.Mapped? && v.flags == want.flags && v.page == want.page && v.frame in st0.owner
        && st0.owner[v.frame] == Free
  }

  ghost predicate GrownViews(st0: St, st: St, d: nat, lo: nat, hi: nat, want: (nat, nat) -> View) {
    && (forall e | IsDir(st0, e) :: IsDir(st, e))
    && (forall e, r, x | IsDir(st0, e) && 0 <= r < ENTRIES && 0 <= x < ENTRIES ::
          if e == d && lo <= Vpn(r, x) < hi then NewPage(st0, ViewAt(st.mem, e, r, x), want(r, x))
          else ViewAt(st.mem, e, r, x) == ViewAt(st0.mem, e, r, x))
  }

  ghost predicate GrownOwner(o0: Owner, o: Owner, d: nat, lo: nat, hi: nat) {
    o == o0 || (o0 == Free && ((o.Table? && o.d == d) || (o.Leaf? && o.d == d && lo <= Vpn(o.r, o.x) < hi)))
  }

  ghost predicate GrownOwners(o0: map<nat, Owner>, o: map<nat, Owner>, d: nat, lo: nat, hi: nat) {
    o.Keys == o0.Keys && forall q | q in o0 :: GrownOwner(o0[q], o[q], d, lo, hi)
  }

  // From st0 to st, d has gained exactly its pages lo to hi, all taken from the free list.
  ghost predicate Grown(st0: St, st: St, d: nat, lo: nat, hi: nat, want: (nat, nat) -> View) {
    GrownViews(st0, st, d, lo, hi, want) && GrownOwners(st0.owner, st.owner, d, lo, hi)
  }

  lemma GrowViews(st0: St, st: St, st': St, d: nat, lo: nat, a: nat, r: nat, x: nat, v: View, want: (nat, nat) -> View)
    requires GrownViews(st0, st, d, lo, a, want) && OneView(st, st', d, r, x, v) && x < ENTRIES
    requires NewPage(st0, v, want(r, x))
    requires lo <= a == Vpn(r, x)
    ensures GrownViews(st0, st', d, lo, a + 1, want)
  {
    forall e, u, y | IsDir(st0, e) && 0 <= u < ENTRIES && 0 <= y < ENTRIES
      ensures if e == d && lo <= Vpn(u, y) < a + 1 then NewPage(st0, ViewAt(st'.mem, e, u, y), want(u, y))
              else ViewAt(st'.mem, e, u, y) == ViewAt(st0.mem, e, u, y)
    {
      SameVpn(r, x, u, y);
    }
  }

  lemma GrowOwners(o0: map<nat, Owner>, o: map<nat, Owner>, o': map<nat, Owner>, d: nat, lo: nat, a: nat, r: nat,
                   x: nat, p: nat)
    requires GrownOwners(o0, o, d, lo, a) && Takes(o, o', d, r, x, p) && o[p] == Free && lo <= a == Vpn(r, x)
    ensures GrownOwners(o0, o', d, lo, a + 1) && o0[p] == Free
  {
    forall q | q in o0
      ensures GrownOwner(o0[q], o'[q], d, lo, a + 1)
    {
      assert GrownOwner(o0[q], o[q], d, lo, a);
    }
    assert GrownOwner(o0[p], o[p], d, lo, a);
  }

  lemma GrowStep(st0: St, st: St, st': St, d: nat, lo: nat, a: nat, r: nat, x: nat, v: View, want: (nat, nat) -> View)
    requires Grown(st0, st, d, lo, a, want) && OneView(st, st', d, r, x, v) && x < ENTRIES && lo <= a == Vpn(r, x)
    requires v.Mapped? && want(r, x).Mapped? && v.flags == want(r, x).flags && v.page == want(r, x).page
    requires v.frame in st.owner && st.owner[v.frame] == Free && Takes(st.owner, st'.owner, d, r, x, v.frame)
    ensures Grown(st0, st', d, lo, a + 1, want)
  {
    GrowOwners(st0.owner, st.owner, st'.owner, d, lo, a, r, x, v.frame);
    GrowViews(st0, st, st', d, lo, a, r, x, v, want);
  }

  /* ---- undoing it ---- */

  // deallocuvm from page a0 comes to every page of a gapless stretch.
  lemma SeesStretch(st: St, d: nat, a0: nat, n: nat, r: nat, x: nat)
    requires r < USER && x < ENTRIES && a0 <= Vpn(r, x) < n && Present(st.mem, d, r, x)
    requires Present(st.mem, d, a0 / ENTRIES, a0 % ENTRIES)
    ensures Vpn(r, x) in Visits(st.mem, d, a0, n)
  {
    VpnSplit(r, x);
    MissesNone(st.mem, d, a0, Vpn(r, x));
    VisitsIff(st.mem, d, a0, n, Vpn(r, x));
  }

  // Entry (r, x) of d after it.
  lemma UndoView(st0: St, st: St, d: nat, a0: nat, a: nat, n: nat, want: (nat, nat) -> View, r: nat, x: nat)
    requires Inv(st) && IsDir(st0, d) && GrownViews(st0, st, d, a0, a, want) && Sized(st0.mem, d, a0) && a0 <= a <= n
    requires r < ENTRIES && x < ENTRIES && n <= USER * ENTRIES
    ensures Vpn(r, x) in Visits(st.mem, d, a0, n) ==> ViewAt(st0.mem, d, r, x) == Absent
    ensures a0 <= Vpn(r, x) < a ==> Vpn(r, x) in Visits(st.mem, d, a0, n)
    ensures Vpn(r, x) !in Visits(st.mem, d, a0, n) ==> ViewAt(st.mem, d, r, x) == ViewAt(st0.mem, d, r, x)
  {
    Unpack(st, 0, 0);
    if Vpn(r, x) < a0 {
      VisitsAhead(st.mem, d, a0, n, Vpn(r, x));
    } else if Vpn(r, x) < a {
      var u, y := a0 / ENTRIES, a0 % ENTRIES;
      assert Vpn(u, y) == a0;
      PresentIff(st, d, u, y);
      PresentIff(st, d, r, x);
      SeesStretch(st, d, a0, n, r, x);
    } else if Vpn(r, x) >= n {
      VisitsBelow(st.mem, d, a0, n, Vpn(r, x));
    }
  }

  lemma UndoViews(st0: St, st: St, st2: St, d: nat, a0: nat, a: nat, n: nat, want: (nat, nat) -> View, seen: set<int>)
    requires Inv(st) && IsDir(st0, d) && GrownViews(st0, st, d, a0, a, want) && Sized(st0.mem, d, a0)
    requires a0 <= a <= n <= USER * ENTRIES
    requires Unmapped(st, st2, d, seen) && seen == Visits(st.mem, d, a0, n)
    ensures SameViews(st0, st2)
  {
    Unpack(st, 0, 0);
    forall e, r, x | IsDir(st0, e) && 0 <= r < ENTRIES && 0 <= x < ENTRIES
      ensures ViewAt(st2.mem, e, r, x) == ViewAt(st0.mem, e, r, x)
    {
      UndoView(st0, st, d, a0, a, n, want, r, x);
    }
  }

  // Giving back the pages `seen` of d brings this owner back to what it was, but for new tables.
  ghost predicate Settles(o0: Owner, o: Owner, d: nat, seen: set<int>) {
    if o.Leaf? && o.d == d && Vpn(o.r, o.x) in seen then o0 == Free
    else o == o0 || (o0 == Free && o.Table? && o.d == d)
  }

  lemma UndoOwner(st0: St, st: St, d: nat, a0: nat, a: nat, n: nat, want: (nat, nat) -> View, seen: set<int>, q: nat)
    requires Inv(st0) && Inv(st) && IsDir(st0, d) && GrownViews(st0, st, d, a0, a, want)
    requires Sized(st0.mem, d, a0) && a0 <= a <= n <= USER * ENTRIES
    requires seen == Visits(st.mem, d, a0, n) && q in st0.owner && q in st.owner
    requires GrownOwner(st0.owner[q], st.owner[q], d, a0, a)
    ensures Settles(st0.owner[q], st.owner[q], d, seen)
  {
    Unpack(st0, 0, 0);
    Unpack(st, 0, 0);
    assert PageOk(st0, q, 0, 0) && PageOk(st, q, 0, 0);
    var o := st.owner[q];
    if o.Leaf? && o.d == d {
      UndoView(st0, st, d, a0, a, n, want, o.r, o.x);
      PresentIff(st0, d, o.r, o.x);
    }
  }

  // After a failed attempt: page p, unless 0, is held and not mapped.
  ghost predicate Stuck(st0: St, st: St, d: nat, lo: nat, hi: nat, want: (nat, nat) -> View, p: nat) {
    && GrownViews(st0, st, d, lo, hi, want) && st.owner.Keys == st0.owner.Keys
    && (forall q | q in st0.owner && q != p :: GrownOwner(st0.owner[q], st.owner[q], d, lo, hi))
    && (p != 0 ==> p in st.owner && p in st.mem && st.owner[p] == Held && st0.owner[p] == Free)
    && (p == 0 ==> p !in st.owner)
  }

  lemma UndoOwners(st0: St, st: St, d: nat, a0: nat, a: nat, n: nat, want: (nat, nat) -> View, seen: set<int>, p: nat)
    requires Inv(st0) && Inv(st) && IsDir(st0, d) && Stuck(st0, st, d, a0, a, want, p)
    requires Sized(st0.mem, d, a0) && a0 <= a <= n <= USER * ENTRIES
    requires seen == Visits(st.mem, d, a0, n)
    ensures forall q | q in st0.owner && q != p :: q in st.owner && Settles(st0.owner[q], st.owner[q], d, seen)
  {
    Unpack(st0, 0, 0);
    Unpack(st, 0, 0);
    forall q | q in st0.owner && q != p
      ensures q in st.owner && Settles(st0.owner[q], st.owner[q], d, seen)
    {
      UndoOwner(st0, st, d, a0, a, n, want, seen, q);
    }
  }

  // All that is left of it, apart from p, is tables.
  lemma OnlyTablesLeft(o0: map<nat, Owner>, o: map<nat, Owner>, o2: map<nat, Owner>, d: nat, seen: set<int>, p: nat)
    requires o.Keys == o0.Keys && (forall q | q in o0 && q != p :: Settles(o0[q], o[q], d, seen))
    requires FreedLeaves(o, o2, d, seen)
    requires p in o0 ==> o0[p] == Free && o[p] == Held
    ensures OnlyTables(o0, if p in o0 then o2[p := Free] else o2, d) && (p in o0 ==> o2[p] == Held)
  {
  }

  lemma GivesUp(st0: St, st: St, st': St, d: nat, lo: nat, hi: nat, want: (nat, nat) -> View, p: nat)
    requires Grown(st0, st, d, lo, hi, want) && SameViews(st, st')
    requires st'.owner == if p == 0 then st.owner else st.owner[p := Held]
    requires p != 0 ==> p in st.owner && st.owner[p] == Free && p in st'.mem
    requires 0 !in st.owner
    ensures Stuck(st0, st', d, lo, hi, want, p)
  {
    assert p in st0.owner ==> GrownOwner(st0.owner[p], st.owner[p], d, lo, hi);
  }

  // What allocuvm puts into a new page.
  ghost function Blank(): (nat, nat) -> View {
    (r: nat, x: nat) => Mapped(0, WU, Zeros())
  }

  lemma GrownSized(st0: St, st: St, d: nat, lo: nat, hi: nat, want: (nat, nat) -> View)
    requires Sized(st0.mem, d, lo) && GrownViews(st0, st, d, lo, hi, want) && IsDir(st0, d) && lo <= hi
    ensures Sized(st.mem, d, hi)
  {
  }

  lemma NewZeroed(st0: St, st: St, d: nat, lo: nat, hi: nat)
    requires Grown(st0, st, d, lo, hi, Blank()) && IsDir(st0, d)
    ensures forall r, x | 0 <= r < USER && 0 <= x < ENTRIES && lo <= r * ENTRIES + x < hi ::
              var v := ViewAt(st.mem, d, r, x);
              && v.Mapped? && v.flags == PTE_W + PTE_U && v.frame in st0.owner && st0.owner[v.frame] == Free
              && forall i | 0 <= i < ENTRIES :: v.page[i] == Word(0, 0, false)
  {
    forall r, x | 0 <= r < USER && 0 <= x < ENTRIES && lo <= r * ENTRIES + x < hi
      ensures NewPage(st0, ViewAt(st.mem, d, r, x), Mapped(0, PTE_W + PTE_U, Zeros()))
    {
      assert Vpn(r, x) == r * ENTRIES + x;
    }
  }

  // The directory entries that pages a to n of d need and that are empty.
  ghost function TablesMissing(mem: Memory, d: nat, a: nat, n: nat): set<nat> {
    if a < n then set r | a / ENTRIES <= r < (n - 1) / ENTRIES + 1 && !HasTable(mem, d, r) else {}
  }

  // The free pages that pages a to n of d take, with their tables.
  ghost function Takeup(mem: Memory, d: nat, a: nat, n: nat): int {
    n - a + |TablesMissing(mem, d, a, n)|
  }

  // What is left of the free pages once pages a to n of d are there: negative if there are too few.
  ghost function Leftover(st: St, d: nat, a: nat, n: nat): int {
    |st.fl| - Takeup(st.mem, d, a, n)
  }

  lemma TakeupNext(mem: Memory, mem': Memory, d: nat, a: nat, n: nat)
    requires a < n && HasTable(mem', d, a / ENTRIES) && OtherTables(mem, mem', d, a / ENTRIES) && n <= USER * ENTRIES
    ensures Takeup(mem, d, a, n) == Takeup(mem', d, a + 1, n) + if HasTable(mem, d, a / ENTRIES) then 1 else 2
  {
    var r := a / ENTRIES;
    var m, m' := TablesMissing(mem, d, a, n), TablesMissing(mem', d, a + 1, n);
    forall u | 0 <= u < ENTRIES && u != r
      ensures u in m <==> u in m'
    {
    }
    assert r !in m' && (r in m <==> !HasTable(mem, d, r));
    assert m' == m - {r};
  }

  lemma TooFew(mem: Memory, d: nat, a: nat, n: nat)
    requires a < n
    ensures Takeup(mem, d, a, n) >= if HasTable(mem, d, a / ENTRIES) then 1 else 2
  {
    if !HasTable(mem, d, a / ENTRIES) {
      assert a / ENTRIES in TablesMissing(mem, d, a, n);
      assert TablesMissing(mem, d, a, n) != {};
    }
  }

  lemma GrownNothing(st: St, d: nat, lo: nat, want: (nat, nat) -> View)
    ensures Grown(st, st, d, lo, lo, want)
  {
  }

  datatype Stage = Added | Room

  ghost predicate StagePart(g: Stage, st0: St, st: St, d: nat, lo: nat, a: nat, n: nat) {
    match g
    case Added => Grown(st0, st, d, lo, a, Blank())
    case Room => Leftover(st, d, a, n) == Leftover(st0, d, lo, n)
  }

  // allocuvm's loop, started in st0 to add pages lo to n, has got to a.
  ghost predicate Growing(st0: St, st: St, d: nat, lo: nat, a: nat, n: nat) {
    lo <= a <= n && forall g: Stage :: StagePart(g, st0, st, d, lo, a, n)
  }

  lemma OpenGrowing(st0: St, st: St, d: nat, lo: nat, a: nat, n: nat)
    requires Growing(st0, st, d, lo, a, n)
    ensures Grown(st0, st, d, lo, a, Blank()) && Leftover(st, d, a, n) == Leftover(st0, d, lo, n)
    ensures a == n ==> |st.fl| == Leftover(st0, d, lo, n)
  {
    assert StagePart(Added, st0, st, d, lo, a, n) && StagePart(Room, st0, st, d, lo, a, n);
  }

  /** The skip over a missing table misses nothing when the present pages are a gapless stretch from 0. */
  lemma ShrinkSized(st0: St, st: St, d: nat, lo: nat, hi: nat, seen: set<int>)
    requires Inv(st0) && IsDir(st0, d) && Sized(st0.mem, d, hi) && lo <= hi <= USER * ENTRIES
    requires Unmapped(st0, st, d, seen) && seen == Visits(st0.mem, d, lo, hi)
    ensures Sized(st.mem, d, lo)
    ensures forall r, x | 0 <= r < USER && 0 <= x < ENTRIES && Vpn(r, x) < lo ::
        ViewAt(st.mem, d, r, x) == ViewAt(st0.mem, d, r, x)
  {
    Unpack(st0, 0, 0);
    forall r, x | 0 <= r < USER && 0 <= x < ENTRIES
      ensures ViewAt(st.mem, d, r, x) != Absent <==> Vpn(r, x) < lo
      ensures Vpn(r, x) < lo ==> ViewAt(st.mem, d, r, x) == ViewAt(st0.mem, d, r, x)
    {
      if Vpn(r, x) < lo {
        VisitsAhead(st0.mem, d, lo, hi, Vpn(r, x));
      } else if Vpn(r, x) < hi {
        assert Vpn(lo / ENTRIES, lo % ENTRIES) == lo;
        PresentIff(st0, d, lo / ENTRIES, lo % ENTRIES);
        PresentIff(st0, d, r, x);
        SeesStretch(st0, d, lo, hi, r, x);
      }
    }
  }

  // The frames of the pages that are gone are free.
  lemma ShrinkFrees(st0: St, st: St, d: nat, lo: nat, hi: nat, seen: set<int>)
    requires Inv(st0) && IsDir(st0, d) && Sized(st0.mem, d, hi) && lo <= hi <= USER * ENTRIES
    requires Cleared(st0, st, d, seen) && seen == Visits(st0.mem, d, lo, hi) && Sized(st.mem, d, lo)
    ensures forall q | q in st0.owner && st0.owner[q].Leaf? && st0.owner[q].d == d ::
        q in st.owner && (Vpn(st0.owner[q].r, st0.owner[q].x) >= lo ==> st.owner[q] == Free)
  {
    Unpack(st0, 0, 0);
    forall q | q in st0.owner && st0.owner[q].Leaf? && st0.owner[q].d == d
      ensures q in st.owner && (Vpn(st0.owner[q].r, st0.owner[q].x) >= lo ==> st.owner[q] == Free)
    {
      var r, x := st0.owner[q].r, st0.owner[q].x;
      assert PageOk(st0, q, 0, 0);
      PresentIff(st0, d, r, x);
      assert Vpn(r, x) >= lo ==> ViewAt(st.mem, d, r, x) == Absent;
    }
  }

  /** In general it does miss pages: with page 1024 present and no table below it, a walk from page 1 skips from
      1 to 1025. */
  lemma SkipMisses()
    ensures var mem := map[1 := Zeros()[1 := Word(2, WU, true)], 2 := Zeros()[0 := Word(3, WU, true)], 3 := Zeros()];
            Present(mem, 1, 1, 0) && Vpn(1, 0) !in Visits(mem, 1, 1, 2048)
  {
    var mem := map[1 := Zeros()[1 := Word(2, WU, true)], 2 := Zeros()[0 := Word(3, WU, true)], 3 := Zeros()];
    assert HasTable(mem, 1, 1) && !HasTable(mem, 1, 0);
    VisitsIff(mem, 1, 1, 2048, 1024);
    assert forall r | 0 <= r < 1 :: !HasTable(mem, 1, r);
  }

  /* ---- freevm ---- */

  // Page q is d itself, one of its tables or one of its user pages.
  ghost predicate BelongsTo(o: map<nat, Owner>, q: nat, d: nat)
    requires q in o
  {
    q == d || (o[q].Table? && o[q].d == d) || (o[q].Leaf? && o[q].d == d)
  }

  // All that belonged to d is free, and nothing else has changed hands.
  ghost predicate GaveAll(o: map<nat, Owner>, o': map<nat, Owner>, d: nat) {
    o'.Keys == o.Keys && forall q | q in o :: o'[q] == if BelongsTo(o, q, d) then Free else o[q]
  }

  // Leaves are gone, and tables below g.
  ghost predicate GaveTables(o: map<nat, Owner>, o': map<nat, Owner>, d: nat, g: nat) {
    o'.Keys == o.Keys && forall q | q in o ::
      o'[q] == if (o[q].Table? && o[q].d == d && o[q].r < g) || (o[q].Leaf? && o[q].d == d) then Free else o[q]
  }

  // Started at page 0, deallocuvm misses nothing, whatever the pages are.
  lemma FromZero(st0: St, st: St, d: nat, seen: set<int>)
    requires Inv(st0) && Cleared(st0, st, d, seen) && seen == Visits(st0.mem, d, 0, USER * ENTRIES)
    ensures NoLeaves(st, d) && GaveTables(st0.owner, st.owner, d, 0)
  {
    Unpack(st0, 0, 0);
    forall q | q in st0.owner && st0.owner[q].Leaf? && st0.owner[q].d == d
      ensures Vpn(st0.owner[q].r, st0.owner[q].x) in seen
    {
      assert PageOk(st0, q, 0, 0);
      var r, x := st0.owner[q].r, st0.owner[q].x;
      VpnSplit(r, x);
      VisitsIff(st0.mem, d, 0, USER * ENTRIES, Vpn(r, x));
    }
  }

  lemma OthersTrans(a: St, b: St, c: St, d: nat)
    requires OthersSame(a, b, d) && OthersSame(b, c, d)
    ensures OthersSame(a, c, d)
  {
  }

  // Table g of d is the page its directory entry names, or there is none.
  lemma TableHere(st: St, d: nat, g: nat)
    requires Dying(st, d, g) && g < ENTRIES
    ensures forall q | q in st.owner && st.owner[q] == Table(d, g) :: st.mem[d][g].p && st.mem[d][g].ppn == q
  {
    Unpack(st, d, g);
    forall q | q in st.owner && st.owner[q] == Table(d, g)
      ensures st.mem[d][g].p && st.mem[d][g].ppn == q
    {
      assert PageOk(st, q, d, g);
    }
  }

  lemma NoTablesLeft(st: St, d: nat)
    requires Dying(st, d, ENTRIES)
    ensures forall q | q in st.owner && st.owner[q].Table? :: st.owner[q].d != d
  {
    Unpack(st, d, ENTRIES);
    forall q | q in st.owner && st.owner[q].Table? ensures st.owner[q].d != d { assert PageOk(st, q, d, ENTRIES); }
  }

  lemma GaveOne(o: map<nat, Owner>, o': map<nat, Owner>, d: nat, g: nat, t: nat)
    requires GaveTables(o, o', d, g) && t in o' && o'[t] == Table(d, g)
    requires forall q | q in o' && o'[q] == Table(d, g) :: q == t
    ensures GaveTables(o, o'[t := Free], d, g + 1)
  {
  }

  // freevm at work: st is st0 with d's user pages and its tables below g given back.
  ghost predicate Teardown(st0: St, st: St, d: nat, g: nat) {
    Dying(st, d, g) && IsDir(st0, d) && GaveTables(st0.owner, st.owner, d, g) && OthersSame(st0, st, d)
  }

  lemma StartTeardown(st0: St, st: St, d: nat, seen: set<int>)
    requires Inv(st0) && Inv(st) && Cleared(st0, st, d, seen) && seen == Visits(st0.mem, d, Pages(0), Pages(KERNBASE))
    ensures Teardown(st0, st, d, 0)
  {
    assert Pages(0) == 0 && Pages(KERNBASE) == USER * ENTRIES;
    FromZero(st0, st, d, seen);
    StartDying(st, d);
  }

  lemma TableFacts(st0: St, st: St, d: nat, g: nat)
    requires Teardown(st0, st, d, g) && g < ENTRIES
    ensures st.head < LIMIT && (st.mem[d][g].p ==> st.mem[d][g].ppn in st.mem && st.mem[d][g].ppn in st.owner)
  {
    Unpack(st, d, g);
    HeadInRange(st, d, g);
    assert DirOk(st, d, d, g);
    assert TableOk(st, d, g);
  }

  lemma TableOwners(st0: St, st: St, st': St, d: nat, g: nat)
    requires Teardown(st0, st, d, g) && g < ENTRIES && st.mem[d][g].p && Gives(st, st', st.mem[d][g].ppn)
    ensures GaveTables(st0.owner, st'.owner, d, g + 1) && st.owner[st.mem[d][g].ppn] == Table(d, g)
  {
    Unpack(st, d, g);
    assert DirOk(st, d, d, g);
    assert TableOk(st, d, g);
    TableHere(st, d, g);
    GaveOne(st0.owner, st.owner, d, g, st.mem[d][g].ppn);
  }

  lemma GivesOwn(st: St, st': St, d: nat, g: nat, t: nat)
    requires InvBut(st, d, g) && IsDir(st, d) && Gives(st, st', t)
    requires t == d || (st.owner[t].Table? && st.owner[t].d == d)
    ensures OthersSame(st, st', d)
  {
    Unpack(st, d, g);
    OwnPage(st, st', d, g, t);
  }

  lemma TableOthers(st0: St, st: St, st': St, d: nat, g: nat)
    requires Teardown(st0, st, d, g) && g < ENTRIES && st.mem[d][g].p && Gives(st, st', st.mem[d][g].ppn)
    requires st.owner[st.mem[d][g].ppn] == Table(d, g)
    ensures OthersSame(st0, st', d)
  {
    GivesOwn(st, st', d, g, st.mem[d][g].ppn);
    OthersTrans(st0, st, st', d);
  }

  lemma TableFreed(st0: St, st: St, st': St, d: nat, g: nat)
    requires Teardown(st0, st, d, g) && g < ENTRIES && st.mem[d][g].p && Gives(st, st', st.mem[d][g].ppn)
    ensures Teardown(st0, st', d, g + 1)
  {
    TableOwners(st0, st, st', d, g);
    TableOthers(st0, st, st', d, g);
    DropTable(st, d, g);
  }

  lemma NoTable(st0: St, st: St, d: nat, g: nat)
    requires Teardown(st0, st, d, g) && g < ENTRIES && !st.mem[d][g].p
    ensures Teardown(st0, st, d, g + 1)
  {
    DropTable(st, d, g);
    TableHere(st, d, g);
  }

  lemma DirOwners(st0: St, st: St, st': St, d: nat)
    requires Teardown(st0, st, d, ENTRIES) && Gives(st, st', d)
    ensures GaveAll(st0.owner, st'.owner, d)
  {
    NoTablesLeft(st, d);
  }

  lemma DirOthers(st0: St, st: St, st': St, d: nat)
    requires Teardown(st0, st, d, ENTRIES) && Gives(st, st', d)
    ensures OthersSame(st0, st', d)
  {
    GivesOwn(st, st', d, ENTRIES, d);
    OthersTrans(st0, st, st', d);
  }

  /* ---- setupkvm ---- */

  const KERN: nat := 0x80000      // KERNBASE, EXTMEM and DEVSPACE in pages
  const EXTMEM: nat := 0x100
  const DEVSPACE: nat := 0xFE000
  const TOP: nat := ENTRIES * ENTRIES

  // Pages of kernel text, of which `data` is the first that may be written.
  predicate IsData(data: nat) {
    EXTMEM < data < LIMIT
  }

  datatype Region = Region(virt: nat, start: nat, end: nat, perm: nat)

  // kmap; the last region ends at the top of the address space.
  function Kmap(data: nat): seq<Region> {
    [Region(KERN, 0, EXTMEM, PTE_W), Region(KERN + EXTMEM, EXTMEM, data, 0), Region(KERN + data, data, LIMIT, PTE_W),
     Region(DEVSPACE, DEVSPACE, TOP, PTE_W)]
  }

  // Where kernel page v is mapped: physical memory from KERNBASE on, with the text read-only, and the devices.
  function Kview(data: nat, v: nat): View {
    if KERN <= v < KERN + LIMIT then Mapped(v - KERN, if EXTMEM <= v - KERN < data then 0 else PTE_W, Zeros())
    else if DEVSPACE <= v < TOP then Mapped(v, PTE_W, Zeros())
    else Absent
  }

  // Of the kernel's half of d, the pages below a are mapped, and no others.
  ghost predicate KernelUpTo(mem: Memory, d: nat, data: nat, a: nat) {
    forall r, x | USER <= r < ENTRIES && 0 <= x < ENTRIES ::
      ViewAt(mem, d, r, x) == if Vpn(r, x) < a then Kview(data, Vpn(r, x)) else Absent
  }

  ghost predicate KernelHalf(mem: Memory, d: nat, data: nat) {
    KernelUpTo(mem, d, data, TOP)
  }

  /** The kernel's half, page by page: physical memory from KERNBASE on, of which the pages from EXTMEM to `data` can
      not be written, the devices from DEVSPACE on, and nothing in between.  None of it is open to user code. */
  lemma KernelHalfIs(mem: Memory, d: nat, data: nat, r: nat, x: nat)
    requires KernelHalf(mem, d, data) && USER <= r < ENTRIES && x < ENTRIES
    ensures var a, v := r * 1024 + x, ViewAt(mem, d, r, x);
            && (a < 0x80000 + LIMIT ==> v.Mapped? && v.frame == a - 0x80000)
            && (a < 0x80000 + LIMIT ==> v.flags == if 0x100 <= v.frame < data then 0 else PTE_W)
            && (0x80000 + LIMIT <= a < 0xFE000 ==> v.Absent?)
            && (0xFE000 <= a ==> v.Mapped? && v.frame == a && v.flags == PTE_W)
  {
    assert Vpn(r, x) == r * 1024 + x;
  }

  // The tables of d are those of the kernel pages below a.
  ghost predicate KernelTables(mem: Memory, d: nat, data: nat, a: nat) {
    forall r | 0 <= r < ENTRIES :: HasTable(mem, d, r) <==> r * ENTRIES < a && Kview(data, r * ENTRIES) != Absent
  }

  // How many tables those are.
  function TablesFor(a: nat): nat {
    (if a <= KERN then 0 else if a < KERN + LIMIT then Tabs(a - KERN) else Tabs(LIMIT))
    + (if a <= DEVSPACE then 0 else Tabs(a - DEVSPACE))
  }

  function Tabs(n: nat): nat {
    (n + ENTRIES - 1) / ENTRIES
  }

  lemma TabsNext(n: nat)
    ensures Tabs(n + 1) == Tabs(n) + if n % ENTRIES == 0 then 1 else 0
  {
  }

  lemma TablesNext(data: nat, a: nat)
    requires Kview(data, a) != Absent
    ensures TablesFor(a + 1) == TablesFor(a) + if a % ENTRIES == 0 then 1 else 0
  {
    if a < DEVSPACE {
      TabsNext(a - KERN);
      Shift(a - KERN, USER);
      assert TablesFor(a) == Tabs(a - KERN) && TablesFor(a + 1) == Tabs(a + 1 - KERN);
    } else {
      TabsNext(a - DEVSPACE);
      Shift(a - DEVSPACE, DEVSPACE / ENTRIES);
      assert TablesFor(a) == Tabs(LIMIT) + Tabs(a - DEVSPACE);
      assert TablesFor(a + 1) == Tabs(LIMIT) + Tabs(a + 1 - DEVSPACE);
    }
  }

  lemma Shift(n: nat, k: nat)
    ensures (n + k * ENTRIES) % ENTRIES == n % ENTRIES
  {
    assert n + k * ENTRIES == (n / ENTRIES + k) * ENTRIES + n % ENTRIES;
  }

  // The range of a table is mapped from its start, or not at all.
  lemma TableStart(data: nat, a: nat)
    requires Kview(data, a) != Absent
    ensures Kview(data, a / ENTRIES * ENTRIES) != Absent
  {
  }

  // Whether kernel page a needs a new table.
  lemma NeedsTable(mem: Memory, d: nat, data: nat, a: nat)
    requires KernelTables(mem, d, data, a) && Kview(data, a) != Absent
    ensures a / ENTRIES < ENTRIES && (HasTable(mem, d, a / ENTRIES) <==> a % ENTRIES != 0)
  {
    TableStart(data, a);
    assert a / ENTRIES * ENTRIES + a % ENTRIES == a;
  }

  lemma TablesGrow(mem: Memory, mem': Memory, d: nat, data: nat, a: nat)
    requires KernelTables(mem, d, data, a) && Kview(data, a) != Absent
    requires HasTable(mem', d, a / ENTRIES) && OtherTables(mem, mem', d, a / ENTRIES)
    ensures KernelTables(mem', d, data, a + 1)
  {
    forall r | 0 <= r < ENTRIES
      ensures HasTable(mem', d, r) <==> r * ENTRIES < a + 1 && Kview(data, r * ENTRIES) != Absent
    {
      if r == a / ENTRIES { TableStart(data, a); } else { assert r * ENTRIES != a; }
    }
  }

  lemma KernelGrows(st: St, st': St, d: nat, data: nat, a: nat, r: nat, x: nat)
    requires IsDir(st, d) && KernelUpTo(st.mem, d, data, a) && USER <= r < ENTRIES && x < ENTRIES && a == Vpn(r, x)
    requires OneView(st, st', d, r, x, Kview(data, a))
    ensures KernelUpTo(st'.mem, d, data, a + 1)
  {
    forall u, y | USER <= u < ENTRIES && 0 <= y < ENTRIES
      ensures ViewAt(st'.mem, d, u, y) == if Vpn(u, y) < a + 1 then Kview(data, Vpn(u, y)) else Absent
    {
      SameVpn(r, x, u, y);
    }
  }

  // Between the end of memory and the devices there is nothing.
  lemma KernelGap(mem: Memory, d: nat, data: nat)
    requires KernelUpTo(mem, d, data, KERN + LIMIT) && KernelTables(mem, d, data, KERN + LIMIT)
    ensures KernelUpTo(mem, d, data, DEVSPACE) && KernelTables(mem, d, data, DEVSPACE)
    ensures TablesFor(DEVSPACE) == TablesFor(KERN + LIMIT)
  {
  }

  // Pages taken from the free list for directory d and its tables.
  ghost predicate NewSpace(o: map<nat, Owner>, o': map<nat, Owner>, d: nat) {
    && o'.Keys == o.Keys && d in o && o[d] == Free && o'[d] == Dir
    && forall q | q in o && q != d :: o'[q] == o[q] || (o[q] == Free && o'[q].Table? && o'[q].d == d)
  }

  // setupkvm at work: everything else is as it was in st0, kernel pages below a are mapped in d.
  ghost predicate Building(st0: St, st: St, d: nat, data: nat, a: nat) {
    && Inv(st0) && Inv(st) && IsDir(st, d) && NewSpace(st0.owner, st.owner, d) && SameViews(st0, st)
    && KernelUpTo(st.mem, d, data, a) && KernelTables(st.mem, d, data, a) && Sized(st.mem, d, 0)
    && |st.fl| + 1 + TablesFor(a) == |st0.fl|
  }

  // There is a table left to make at a.
  lemma TablesBound(data: nat, a: nat)
    requires Kview(data, a) != Absent && a % ENTRIES == 0
    ensures TablesFor(a) < TablesFor(TOP) == 64
  {
  }

  lemma BuildStart(st0: St, st: St, st': St, d: nat, data: nat)
    requires Inv(st0) && Inv(st) && SameViews(st0, st) && d in st0.owner && st0.owner[d] == Free
    requires st.owner == st0.owner[d := Held]
    requires |st.fl| == |st0.fl| - 1
    requires st' == st.(mem := st.mem[d := Zeros()], owner := st.owner[d := Dir])
    ensures Building(st0, st', d, data, KERN)
  {
    var st1 := st.(mem := st.mem[d := Zeros()]);
    FillStep(st, d, Zeros());
    HeldViews(st, st1, d);
    DirStep(st1, st', d);
    forall r | 0 <= r < ENTRIES ensures !HasTable(st'.mem, d, r) { assert st'.mem[d][r] == ZERO; }
  }

  lemma BuildSpace(o0: map<nat, Owner>, o: map<nat, Owner>, o': map<nat, Owner>, d: nat)
    requires NewSpace(o0, o, d) && OnlyTables(o, o', d)
    ensures NewSpace(o0, o', d)
  {
  }

  lemma BuildViews(st0: St, st: St, st': St, d: nat, r: nat, x: nat, v: View)
    requires SameViews(st0, st) && OneView(st, st', d, r, x, v) && USER <= r && d in st0.owner && st0.owner[d] == Free
    requires IsDir(st, d)
    requires Sized(st.mem, d, 0)
    ensures SameViews(st0, st') && Sized(st'.mem, d, 0)
  {
  }

  // One kernel page: st1 once its table is there, st2 with the entry.
  lemma BuildStep(st0: St, st: St, st1: St, st2: St, d: nat, data: nat, a: nat, w: Word)
    requires Building(st0, st, d, data, a) && w.p && Kview(data, a) == Mapped(w.ppn, w.flags, Zeros())
    requires Inv(st1) && SameViews(st, st1) && OnlyTables(st.owner, st1.owner, d)
    requires OtherTables(st.mem, st1.mem, d, a / ENTRIES)
    requires Stores(st1, st2, d, a / ENTRIES, a % ENTRIES, w) && |st1.fl| == |st.fl| - if a % ENTRIES == 0 then 1 else 0
    ensures Building(st0, st2, d, data, a + 1)
  {
    var r, x := a / ENTRIES, a % ENTRIES;
    assert a == Vpn(r, x);
    StoreStep(st1, st2, d, r, x, w);
    StoreViews(st1, st2, d, r, x, w);
    ViewsTransTwo(st, st1, st2, d, r, x, Kview(data, a));
    BuildViews(st0, st, st2, d, r, x, Kview(data, a));
    KernelGrows(st, st2, d, data, a, r, x);
    SetSameTables(st1, d, r, x, w);
    TablesGrow(st.mem, st2.mem, d, data, a);
    BuildSpace(st0.owner, st.owner, st2.owner, d);
    TablesNext(data, a);
  }

  // The kernel pages below a are not there twice: no "remap".
  lemma NoRemap(st: St, st1: St, d: nat, data: nat, a: nat)
    requires Inv(st1) && IsDir(st, d) && KernelUpTo(st.mem, d, data, a) && SameViews(st, st1) && KERN <= a < TOP
    ensures !Present(st1.mem, d, a / ENTRIES, a % ENTRIES)
  {
    var r, x := a / ENTRIES, a % ENTRIES;
    assert a == Vpn(r, x);
    PresentIff(st1, d, r, x);
  }

  // Page by page, the free list is empty and all it held is taken.
  ghost predicate AllLost(o: map<nat, Owner>, o': map<nat, Owner>) {
    o'.Keys == o.Keys && forall q | q in o :: o'[q] == if o[q] == Free then Held else o[q]
  }

  ghost function Forgotten(o: map<nat, Owner>, d: nat): map<nat, Owner> {
    map q | q in o :: if q == d || (o[q].Table? && o[q].d == d) then Held else o[q]
  }

  lemma NoLeavesYet(st0: St, st: St, d: nat)
    requires Inv(st0) && NewSpace(st0.owner, st.owner, d)
    ensures NoLeaves(st, d)
  {
    Unpack(st0, 0, 0);
    forall p | p in st.owner && st.owner[p].Leaf? ensures st.owner[p].d != d { assert PageOk(st0, p, 0, 0); }
  }

  lemma NoTablesBefore(st0: St, d: nat)
    requires Inv(st0) && d in st0.owner && st0.owner[d] == Free
    ensures forall q | q in st0.owner && st0.owner[q].Table? :: st0.owner[q].d != d
  {
    Unpack(st0, 0, 0);
    forall q | q in st0.owner && st0.owner[q].Table? ensures st0.owner[q].d != d { assert PageOk(st0, q, 0, 0); }
  }

  lemma NoneFree(st: St)
    requires Inv(st) && st.fl == []
    ensures forall q | q in st.owner :: st.owner[q] != Free
  {
    Unpack(st, 0, 0);
  }

  /** setupkvm out of memory: the directory and the tables it has made so far are never given back. */
  lemma Abandoned(st0: St, st: St, st': St, d: nat, data: nat, a: nat)
    requires Building(st0, st, d, data, a) && st.fl == [] && st' == st.(owner := Forgotten(st.owner, d))
    ensures Inv(st') && SameViews(st0, st') && AllLost(st0.owner, st'.owner)
  {
    NoLeavesYet(st0, st, d);
    ForgetStep(st, st', d);
    NoTablesBefore(st0, d);
    NoneFree(st);
  }

  // Where the kernel pages of region k begin.
  function At(data: nat, k: nat): nat {
    if k < 4 then Kmap(data)[k].virt else TOP
  }

  lemma RegionView(data: nat, k: nat, a: nat, pa: nat)
    requires IsData(data) && k < 4 && Kmap(data)[k].virt <= a && Kmap(data)[k].virt + pa == Kmap(data)[k].start + a
    requires pa < Kmap(data)[k].end
    ensures Kview(data, a) == Mapped(pa, Kmap(data)[k].perm, Zeros()) && KERN <= a < TOP
  {
  }

  lemma RegionDone(st0: St, st: St, d: nat, data: nat, k: nat, a: nat)
    requires IsData(data) && k < 4 && Building(st0, st, d, data, a)
    requires a + Kmap(data)[k].start == Kmap(data)[k].virt + Kmap(data)[k].end
    ensures Building(st0, st, d, data, At(data, k + 1))
  {
    if k == 2 { KernelGap(st.mem, d, data); }
  }

  ghost predicate NoUserTables(mem: Memory, d: nat) {
    forall r | 0 <= r < USER :: !HasTable(mem, d, r)
  }

  /* ---- copyuvm ---- */

  // What copyuvm puts into the child's pages: what the parent d has there.
  ghost function Of(mem: Memory, d: nat): (nat, nat) -> View {
    (r: nat, x: nat) => ViewAt(mem, d, r, x)
  }

  // The half-made child is gone again; page p, unless 0, is lost.
  ghost predicate GaveAllBut(o: map<nat, Owner>, o': map<nat, Owner>, d: nat, p: nat) {
    && o'.Keys == o.Keys
    && (forall q | q in o && q != p :: o'[q] == if BelongsTo(o, q, d) then Free else o[q])
    && (p != 0 ==> p in o && o[p] == Free && o'[p] == Held)
  }

  lemma CopyUndone(st0: St, st: St, st': St, d: nat, hi: nat, want: (nat, nat) -> View, p: nat)
    requires Stuck(st0, st, d, 0, hi, want, p) && IsDir(st0, d) && GaveAll(st.owner, st'.owner, d)
    requires OthersSame(st, st', d)
    ensures GaveAllBut(st0.owner, st'.owner, d, p) && OthersSame(st0, st', d)
  {
    forall q | q in st0.owner && q != p
      ensures st'.owner[q] == if BelongsTo(st0.owner, q, d) then Free else st0.owner[q]
    {
      assert GrownOwner(st0.owner[q], st.owner[q], d, 0, hi);
    }
  }

  // The user tables of d are those of its pages below a.
  ghost predicate UserTables(mem: Memory, d: nat, a: nat) {
    forall r | 0 <= r < USER :: HasTable(mem, d, r) <==> r * ENTRIES < a
  }

  lemma UserTablesGrow(mem: Memory, mem': Memory, d: nat, a: nat, r: nat, x: nat)
    requires UserTables(mem, d, a) && r < USER && x < ENTRIES && a == Vpn(r, x)
    requires HasTable(mem', d, r) && OtherTables(mem, mem', d, r)
    ensures UserTables(mem', d, a + 1) && (HasTable(mem, d, r) <==> a % ENTRIES != 0)
  {
    VpnSplit(r, x);
    forall u | 0 <= u < USER
      ensures HasTable(mem', d, u) <==> u * ENTRIES < a + 1
    {
      if u != r { assert u * ENTRIES != a; }
    }
  }

  // The pages that a user space of n pages takes, with its tables.
  function Cost(n: nat): nat {
    n + Tabs(n)
  }

  lemma {:induction false} CostGrows(a: nat, n: nat)
    requires a < n
    ensures Cost(a) + (if a % ENTRIES == 0 then 2 else 1) == Cost(a + 1) <= Cost(n)
    decreases n - a
  {
    TabsNext(a);
    if a + 1 < n { CostGrows(a + 1, n); }
  }

  // Memory runs out at page a: for the page itself, or once that is taken for its table, p being the page.
  ghost predicate RunsOut(free: nat, a: nat, p: nat) {
    if p == 0 then free == Cost(a) else a % ENTRIES == 0 && free == Cost(a) + 1
  }

  lemma WhereItRunsOut(free: nat, a: nat, p: nat, n: nat)
    requires RunsOut(free, a, p) && a < n
    ensures free < Cost(n) && (p != 0 <==> free % (ENTRIES + 1) == 1)
  {
    CostGrows(a, n);
    var k, j := a / ENTRIES, a % ENTRIES;
    assert a == k * ENTRIES + j;
    assert Tabs(a) == if j == 0 then k else k + 1;
    assert Cost(a) == k * (ENTRIES + 1) + (if j == 0 then 0 else j + 1);
  }

  // User page v of d is present.
  ghost predicate There(mem: Memory, d: nat, v: nat) {
    ViewAt(mem, d, v / ENTRIES, v % ENTRIES) != Absent
  }

  // The first page of d from a on that is absent, n if none below n is.
  ghost function FirstAbsent(mem: Memory, d: nat, a: nat, n: nat): (w: nat)
    requires a <= n
    ensures a <= w <= n && (forall v | a <= v < w :: There(mem, d, v)) && (w < n ==> !There(mem, d, w))
    decreases n - a
  {
    if a == n || !There(mem, d, a) then a else FirstAbsent(mem, d, a + 1, n)
  }

  lemma SameAbsent(st: St, st': St, d: nat, n: nat)
    requires SameViews(st, st') && IsDir(st, d) && n <= USER * ENTRIES
    ensures FirstAbsent(st'.mem, d, 0, n) == FirstAbsent(st.mem, d, 0, n)
  {
    var w, w' := FirstAbsent(st.mem, d, 0, n), FirstAbsent(st'.mem, d, 0, n);
    assert forall v | 0 <= v < n :: There(st'.mem, d, v) == There(st.mem, d, v);
    assert w < n ==> There(st'.mem, d, w) == There(st.mem, d, w);
    assert w' < n ==> There(st'.mem, d, w') == There(st.mem, d, w');
  }

  lemma AbsentUnsized(mem: Memory, d: nat, n: nat)
    requires FirstAbsent(mem, d, 0, n) < n <= USER * ENTRIES
    ensures !Sized(mem, d, n)
  {
    var w := FirstAbsent(mem, d, 0, n);
    assert Vpn(w / ENTRIES, w % ENTRIES) == w && !There(mem, d, w);
  }

  // The child has copies of the parent's pages below n, in frames that were free, and the kernel's half.
  ghost predicate Copy(st0: St, st: St, d: nat, child: nat, n: nat, data: nat) {
    && IsDir(st, child) && KernelHalf(st.mem, child, data) && Sized(st.mem, child, n)
    && forall r, x | 0 <= r < USER && 0 <= x < ENTRIES && Vpn(r, x) < n ::
         NewPage(st0, ViewAt(st.mem, child, r, x), ViewAt(st0.mem, d, r, x))
  }

  lemma CopyIs(st0: St, st: St, d: nat, child: nat, n: nat, data: nat)
    requires Copy(st0, st, d, child, n, data)
    ensures forall r, x | 0 <= r < USER && 0 <= x < ENTRIES ::
              var v, u := ViewAt(st.mem, child, r, x), ViewAt(st0.mem, d, r, x);
              if r * ENTRIES + x >= n then v.Absent?
              else v.Mapped? && u.Mapped? && v.flags == u.flags && v.page == u.page
                   && v.frame in st0.owner && st0.owner[v.frame] == Free
  {
    forall r, x | 0 <= r < USER && 0 <= x < ENTRIES
      ensures r * ENTRIES + x >= n ==> ViewAt(st.mem, child, r, x).Absent?
      ensures r * ENTRIES + x < n ==> NewPage(st0, ViewAt(st.mem, child, r, x), ViewAt(st0.mem, d, r, x))
    {
      assert Vpn(r, x) == r * ENTRIES + x;
    }
  }

  // What changes hands goes from the free list to d.
  ghost predicate OnlyTo(o: map<nat, Owner>, o': map<nat, Owner>, d: nat) {
    o'.Keys == o.Keys && forall q | q in o :: o'[q] == o[q] || (o[q] == Free && BelongsTo(o', q, d))
  }

  lemma CopyOwners(o0: map<nat, Owner>, o1: map<nat, Owner>, o: map<nat, Owner>, d: nat, n: nat)
    requires NewSpace(o0, o1, d) && GrownOwners(o1, o, d, 0, n)
    ensures OnlyTo(o0, o, d)
  {
    forall q | q in o0
      ensures o[q] == o0[q] || (o0[q] == Free && BelongsTo(o, q, d))
    {
      assert GrownOwner(o1[q], o[q], d, 0, n);
    }
  }

  lemma CopyDone(st0: St, st1: St, st: St, d: nat, child: nat, n: nat, data: nat)
    requires SameViews(st0, st1) && NewSpace(st0.owner, st1.owner, child) && IsDir(st0, d) && IsDir(st1, child)
    requires KernelHalf(st1.mem, child, data) && Sized(st1.mem, child, 0) && n <= USER * ENTRIES
    requires Grown(st1, st, child, 0, n, Of(st1.mem, d)) && Sized(st.mem, child, n)
    ensures Copy(st0, st, d, child, n, data) && SameViews(st0, st) && OnlyTo(st0.owner, st.owner, child)
  {
    CopyOwners(st0.owner, st1.owner, st.owner, child, n);
    forall r, x | USER <= r < ENTRIES && 0 <= x < ENTRIES
      ensures ViewAt(st.mem, child, r, x) == Kview(data, Vpn(r, x))
    {
      assert Vpn(r, x) < TOP;
    }
  }

  lemma NothingBefore(st0: St, d: nat, q: nat)
    requires Inv(st0) && d in st0.owner && st0.owner[d] == Free && q in st0.owner && q != d
    ensures !BelongsTo(st0.owner, q, d)
  {
    Unpack(st0, 0, 0);
    assert PageOk(st0, q, 0, 0);
  }

  lemma CopyFailed(st0: St, st1: St, st: St, d: nat, p: nat)
    requires Inv(st0) && SameViews(st0, st1) && NewSpace(st0.owner, st1.owner, d) && IsDir(st1, d)
    requires GaveAllBut(st1.owner, st.owner, d, p) && OthersSame(st1, st, d) && 0 !in st0.owner
    ensures SameViews(st0, st) && st.owner == if p == 0 then st0.owner else st0.owner[p := Held]
  {
    forall q | q in st0.owner && q != p
      ensures st.owner[q] == st0.owner[q]
    {
      if q != d { NothingBefore(st0, d, q); }
    }
  }

  /* ---- the kernel's half ---- */

  ghost predicate AllKernels(st: St, data: nat) {
    forall e | IsDir(st, e) :: KernelHalf(st.mem, e, data)
  }

  // An address space whose kernel half looks the same.
  lemma SameKernel(st: St, st': St, e: nat, data: nat)
    requires KernelHalf(st.mem, e, data)
    requires forall r, x | USER <= r < ENTRIES && 0 <= x < ENTRIES ::
        ViewAt(st'.mem, e, r, x) == ViewAt(st.mem, e, r, x)
    ensures KernelHalf(st'.mem, e, data)
  {
  }

  /** Every address space keeps the kernel's half when one of them grows (allocuvm), ... */
  lemma KernelsGrown(st: St, st': St, d: nat, lo: nat, hi: nat, want: (nat, nat) -> View, data: nat)
    requires AllKernels(st, data) && Grown(st, st', d, lo, hi, want) && hi <= USER * ENTRIES
    requires st.owner.Keys == st.mem.Keys
    ensures AllKernels(st', data)
  {
    forall e | IsDir(st', e)
      ensures KernelHalf(st'.mem, e, data)
    {
      assert GrownOwner(st.owner[e], st'.owner[e], d, lo, hi);
      SameKernel(st, st', e, data);
    }
  }

  /** ... shrinks (deallocuvm), ... */
  lemma KernelsCleared(st: St, st': St, d: nat, a: nat, n: nat, data: nat)
    requires AllKernels(st, data) && Cleared(st, st', d, Visits(st.mem, d, a, n)) && n <= USER * ENTRIES
    requires st.owner.Keys == st.mem.Keys
    ensures AllKernels(st', data)
  {
    forall e | IsDir(st', e)
      ensures KernelHalf(st'.mem, e, data)
    {
      forall r, x | USER <= r < ENTRIES && 0 <= x < ENTRIES
        ensures ViewAt(st'.mem, e, r, x) == ViewAt(st.mem, e, r, x)
      {
        VisitsBelow(st.mem, d, a, n, Vpn(r, x));
      }
      SameKernel(st, st', e, data);
    }
  }

  /** ... or goes (freevm), ... */
  lemma KernelsFreed(st: St, st': St, d: nat, data: nat)
    requires AllKernels(st, data) && GaveAll(st.owner, st'.owner, d) && OthersSame(st, st', d)
    requires st.owner.Keys == st.mem.Keys
    ensures AllKernels(st', data)
  {
    forall e | IsDir(st', e)
      ensures KernelHalf(st'.mem, e, data)
    {
      SameKernel(st, st', e, data);
    }
  }

  /** ... and a copy gets it (copyuvm). */
  lemma KernelsCopied(st: St, st': St, d: nat, child: nat, n: nat, data: nat)
    requires AllKernels(st, data) && Copy(st, st', d, child, n, data) && SameViews(st, st')
    requires OnlyTo(st.owner, st'.owner, child)
    requires st.owner.Keys == st.mem.Keys
    ensures AllKernels(st', data)
  {
    forall e | IsDir(st', e)
      ensures KernelHalf(st'.mem, e, data)
    {
      if e != child { SameKernel(st, st', e, data); }
    }
  }

  // One round of the walk, from a to a'.
  lemma WalkStep(mem: Memory, d: nat, a: nat, n: nat, found: bool, a': nat, seen: set<int>, seen': set<int>)
    requires a < n && found == HasTable(mem, d, a / ENTRIES)
    requires seen' == (if found then seen + {a} else seen) && a' == if found then a + 1 else a + ENTRIES
    ensures seen' + Visits(mem, d, a', n) == seen + Visits(mem, d, a, n)
  {
  }

  datatype MapResult = Done | NoRoom | Remap

  datatype CopyResult = Copied | NoMemory | Panics

  class Vm {
    var mem: Memory
    var head: nat
    ghost var fl: seq<nat>
    ghost var owner: map<nat, Owner>

    ghost function State(): St
      reads this
    {
      St(mem, head, fl, owner)
    }

    ghost predicate Valid()
      reads this
    {
      Inv(State())
    }

    /** kinit1 and kinit2: freerange frees the pages from lo to hi, whatever they hold. */
    constructor (lo: nat, hi: nat, image: Memory)
      requires 0 < lo <= hi <= LIMIT && forall p :: p in image <==> lo <= p < hi
      ensures Valid() && mem.Keys == image.Keys && owner.Keys == image.Keys
      ensures forall p | p in owner :: owner[p] == Free
    {
      mem, head, fl := image, 0, [];
      owner := map p | p in image :: Held;
      new;
      BootInv(State());
      var p := lo;
      while p < hi
        invariant lo <= p <= hi && Valid() && owner.Keys == image.Keys
        invariant forall q | q in owner :: owner[q] == if q < p then Free else Held
      {
        FreeHeld(p);
        p := p + 1;
      }
    }

    method Kalloc() returns (p: nat)
      requires Valid()
      modifies this`head, this`fl, this`owner
      ensures Valid() && SameViews(old(State()), State())
      ensures p == 0 <==> old(fl) == []
      ensures p == 0 ==> unchanged(this)
      ensures p != 0 ==> p in old(owner) && old(owner[p]) == Free && owner == old(owner)[p := Held]
      ensures p != 0 ==> |fl| == |old(fl)| - 1
    {
      Unpack(State(), 0, 0);
      assert fl != [] ==> fl[0] in fl;
      p := head;
      if p != 0 {
        TakeStep(State());
        head := Link(mem[p]);
        fl := fl[1..];
        owner := owner[p := Held];
      }
    }

    // The page's own contents only; what it was used for is the caller's business.
    method Kfree(p: nat)
      requires p in mem && head < LIMIT
      modifies this`mem, this`head, this`fl
      ensures mem == old(mem)[p := Junk(old(head))] && head == p && fl == [p] + old(fl)
    {
      mem := mem[p := Junk(head)];
      head := p;
      fl := [p] + fl;
    }

    // The page of the table for directory entry r, 0 if there is none.
    method WalkPgdir(d: nat, r: nat, alloc: bool) returns (t: nat)
      requires Valid() && IsDir(State(), d) && r < ENTRIES
      modifies this
      ensures Valid() && IsDir(State(), d) && SameViews(old(State()), State()) && OnlyTables(old(owner), owner, d)
      ensures t == 0 <==> !old(HasTable(mem, d, r)) && (!alloc || old(fl) == [])
      ensures t != 0 <==> HasTable(mem, d, r)
      ensures t != 0 ==> t == TableOf(mem, d, r)
      ensures old(HasTable(mem, d, r)) || t == 0 ==> unchanged(this)
      ensures t != 0 && !old(HasTable(mem, d, r)) ==> |fl| == |old(fl)| - 1 && mem[d][r] == Word(t, PTE_W + PTE_U, true)
      ensures HeldKept(old(State()), State()) && OtherTables(old(mem), mem, d, r)
    {
      Unpack(State(), 0, 0);
      assert DirOk(State(), d, 0, 0);
      assert TableOk(State(), d, r);
      if mem[d][r].p {
        return mem[d][r].ppn;
      }
      if !alloc { return 0; }
      t := MakeTable(d, r);
    }

    method MakeTable(d: nat, r: nat) returns (t: nat)
      requires Valid() && IsDir(State(), d) && r < ENTRIES && !mem[d][r].p
      modifies this
      ensures Valid() && SameViews(old(State()), State()) && OnlyTables(old(owner), owner, d)
      ensures t == 0 <==> old(fl) == []
      ensures t == 0 ==> unchanged(this)
      ensures t != 0 ==> HasTable(mem, d, r) && t == TableOf(mem, d, r) && |fl| == |old(fl)| - 1
      ensures t != 0 ==> mem[d][r] == Word(t, PTE_W + PTE_U, true)
      ensures HeldKept(old(State()), State()) && OtherTables(old(mem), mem, d, r)
    {
      t := Kalloc();
      if t == 0 { return; }
      NewTable(State(), d, r, t);
      mem := mem[t := Zeros()];
      mem := mem[d := mem[d][r := Word(t, WU, true)]];
      owner := owner[t := Table(d, r)];
    }

    method DropLeaf(d: nat, r: nat, x: nat, t: nat)
      requires Valid() && IsDir(State(), d) && r < USER && Present(mem, d, r, x) && t == TableOf(mem, d, r)
      modifies this
      ensures old(head) < LIMIT && State() == Dropped(old(State()), d, r, x)
    {
      ghost var st := State();
      DropFacts(st, d, r, x);
      var p := mem[t][x].ppn;
      Kfree(p);
      mem := mem[t := mem[t][x := ZERO]];
      owner := owner[p := Free];
      assert mem == WithEntry(st.mem, d, r, x, ZERO)[p := Junk(st.head)];
    }

    // An entry whose table exists.
    method ClearEntry(d: nat, r: nat, x: nat, t: nat, ghost st0: St, ghost seen: set<int>)
      requires Inv(st0) && Valid() && Cleared(st0, State(), d, seen) && r < USER && x < ENTRIES
      requires HasTable(mem, d, r) && t == TableOf(mem, d, r)
      modifies this
      ensures Valid() && Cleared(st0, State(), d, seen + {Vpn(r, x)})
    {
      ClearStep(st0, State(), d, r, x, seen);
      if mem[t][x].p {
        DropLeaf(d, r, x, t);
      }
    }

    method ClearAt(d: nat, a: nat, r: nat, x: nat, ghost st0: St, ghost seen: set<int>)
      returns (found: bool, ghost seen': set<int>)
      requires Inv(st0) && Valid() && Cleared(st0, State(), d, seen) && r < USER && x < ENTRIES && a == Vpn(r, x)
      modifies this
      ensures found <==> HasTable(st0.mem, d, r)
      ensures seen' == if found then seen + {a} else seen
      ensures Valid() && Cleared(st0, State(), d, seen')
    {
      seen' := seen;
      var t := WalkPgdir(d, r, false);
      found := t != 0;
      if found {
        ClearEntry(d, r, x, t, st0, seen);
        seen' := seen + {a};
      }
    }

    // Page by page, but past the whole range of a missing table at once.
    method ClearRange(d: nat, oldsz: nat, newsz: nat) returns (ghost seen: set<int>)
      requires Valid() && IsDir(State(), d) && newsz < oldsz <= KERNBASE
      modifies this
      ensures Valid() && Cleared(old(State()), State(), d, seen)
      ensures seen == Visits(old(mem), d, Pages(newsz), Pages(oldsz))
    {
      seen := {};
      ghost var st0 := State();
      var a := Pages(newsz);
      ghost var all := Visits(mem, d, a, Pages(oldsz));
      while a * 4096 < oldsz
        invariant Valid() && Cleared(st0, State(), d, seen)
        invariant seen + Visits(st0.mem, d, a, Pages(oldsz)) == all
        decreases oldsz - a * 4096
      {
        PageBelow(a, oldsz);
        ghost var a0, seen0 := a, seen;
        var found;
        found, seen := ClearAt(d, a, a / ENTRIES, a % ENTRIES, st0, seen);
        if !found {
          a := a + (ENTRIES - 1);
        }
        a := a + 1;
        WalkStep(st0.mem, d, a0, Pages(oldsz), found, a, seen0, seen);
      }
      PageBelow(a, oldsz);
    }

    /** deallocuvm gives back exactly the pages that its walk comes to. */
    method Deallocuvm(d: nat, oldsz: nat, newsz: nat) returns (r: nat, ghost seen: set<int>)
      requires Valid() && IsDir(State(), d) && oldsz <= KERNBASE
      modifies this
      ensures Valid() && Cleared(old(State()), State(), d, seen)
      ensures seen == if newsz < oldsz then Visits(old(mem), d, Pages(newsz), Pages(oldsz)) else {}
      ensures r == if newsz >= oldsz then oldsz else newsz
      ensures newsz < oldsz && old(Sized(mem, d, Pages(oldsz))) ==> Sized(mem, d, Pages(newsz))
      ensures newsz < oldsz && old(Sized(mem, d, Pages(oldsz))) ==>
        forall r, x | 0 <= r < USER && 0 <= x < ENTRIES && r * ENTRIES + x < Pages(newsz) ::
          ViewAt(mem, d, r, x) == ViewAt(old(mem), d, r, x)
      ensures newsz < oldsz && old(Sized(mem, d, Pages(oldsz))) ==>
        forall q | q in old(owner) && old(owner)[q].Leaf? && old(owner)[q].d == d
            && old(owner)[q].r * ENTRIES + old(owner)[q].x >= Pages(newsz) ::
          q in owner && owner[q] == Free
    {
      if newsz >= oldsz { return oldsz, {}; }
      ghost var st0 := State();
      seen := ClearRange(d, oldsz, newsz);
      if Sized(st0.mem, d, Pages(oldsz)) {
        ShrinkSized(st0, State(), d, Pages(newsz), Pages(oldsz), seen);
        ShrinkFrees(st0, State(), d, Pages(newsz), Pages(oldsz), seen);
      }
      return newsz, seen;
    }

    /** mappages for one page: Remap is the panic "remap", for a page that is there already. */
    method MapPage(d: nat, r: nat, x: nat, p: nat, flags: nat) returns (m: MapResult)
      requires Valid() && IsDir(State(), d) && r < USER && x < ENTRIES
      requires p in owner && owner[p] == Held && p in mem
      modifies this
      ensures m.Remap? <==> old(Present(mem, d, r, x))
      ensures m.NoRoom? <==> !old(HasTable(mem, d, r)) && old(fl) == []
      ensures Valid() && (!m.Done? ==> unchanged(this))
      ensures m.Done? ==> OneView(old(State()), State(), d, r, x, Mapped(p, flags, old(mem[p])))
      ensures m.Done? ==> Takes(old(owner), owner, d, r, x, p)
      ensures m.Done? ==> HasTable(mem, d, r) && OtherTables(old(mem), mem, d, r)
      ensures m.Done? ==> |fl| == |old(fl)| - if old(HasTable(mem, d, r)) then 0 else 1
    {
      ghost var st0 := State();
      PresentIff(st0, d, r, x);
      var t := WalkPgdir(d, r, true);
      if t == 0 { return NoRoom; }
      PresentIff(State(), d, r, x);
      if mem[t][x].p { return Remap; }
      SetEntry(st0, d, r, x, t, p, flags);
      return Done;
    }

    // The entry itself, in table t; st0 was the state before the table was looked up.
    method SetEntry(ghost st0: St, d: nat, r: nat, x: nat, t: nat, p: nat, flags: nat)
      requires Valid() && IsDir(st0, d) && IsDir(State(), d) && r < USER && x < ENTRIES
      requires ViewAt(st0.mem, d, r, x) == Absent
      requires HasTable(mem, d, r) && t == TableOf(mem, d, r)
      requires SameViews(st0, State()) && OnlyTables(st0.owner, owner, d) && HeldKept(st0, State())
      requires p in st0.owner && p in st0.mem && st0.owner[p] == Held
      modifies this`mem, this`owner
      ensures Valid() && OneView(st0, State(), d, r, x, Mapped(p, flags, st0.mem[p]))
      ensures Takes(st0.owner, owner, d, r, x, p)
      ensures SameTables(old(mem), mem, d)
    {
      MappedStep(st0, State(), d, r, x, p, flags);
      TakesAfter(st0.owner, owner, d, r, x, p);
      SetSameTables(State(), d, r, x, Word(p, flags, true));
      mem := mem[t := mem[t][x := Word(p, flags, true)]];
      owner := owner[p := Leaf(d, r, x)];
    }

    /** A fresh page with the given contents at an absent user page (vm.c:234-247, 330-338).  p is 0 when there was
        none; otherwise, on failure, the page is still held. */
    method AddPage(d: nat, r: nat, x: nat, page: Page, flags: nat) returns (p: nat, ok: bool)
      requires Valid() && IsDir(State(), d) && r < USER && x < ENTRIES && !Present(mem, d, r, x)
      modifies this
      ensures Valid() && (p == 0 ==> !ok && unchanged(this))
      ensures p == 0 <==> old(fl) == []
      ensures p != 0 && !ok <==> !old(HasTable(mem, d, r)) && |old(fl)| == 1
      ensures p != 0 ==> p in old(owner) && old(owner[p]) == Free && p in mem
      ensures p != 0 && !ok ==> SameViews(old(State()), State()) && owner == old(owner)[p := Held]
      ensures ok ==> OneView(old(State()), State(), d, r, x, Mapped(p, flags, page))
      ensures ok ==> Takes(old(owner), owner, d, r, x, p)
      ensures ok ==> HasTable(mem, d, r) && OtherTables(old(mem), mem, d, r)
      ensures ok ==> |fl| == |old(fl)| - if old(HasTable(mem, d, r)) then 1 else 2
    {
      ghost var st0 := State();
      p := TakePage(page);
      if p == 0 { return 0, false; }
      ghost var st := State();
      PresentIff(st0, d, r, x);
      PresentIff(st, d, r, x);
      var m := MapPage(d, r, x, p, flags);
      ok := m.Done?;
      if ok { ViewsTransTwo(st0, st, State(), d, r, x, Mapped(p, flags, page)); }
    }

    // kalloc, and fill the page.
    method TakePage(page: Page) returns (p: nat)
      requires Valid()
      modifies this
      ensures Valid() && SameViews(old(State()), State())
      ensures p == 0 <==> old(fl) == []
      ensures p == 0 ==> unchanged(this)
      ensures p != 0 ==> p in old(owner) && old(owner[p]) == Free && owner == old(owner)[p := Held] && p in mem
      ensures p != 0 ==> mem[p] == page
      ensures p != 0 ==> mem == old(mem)[p := page] && |fl| == |old(fl)| - 1
    {
      p := Kalloc();
      if p == 0 { return; }
      FillStep(State(), p, page);
      HeldViews(State(), State().(mem := mem[p := page]), p);
      mem := mem[p := page];
    }

    // The page at a, where there is none yet.
    method AddAt(d: nat, ghost a: nat, r: nat, x: nat, page: Page, flags: nat, ghost st0: St, ghost lo: nat,
                 ghost want: (nat, nat) -> View)
      returns (p: nat, ok: bool)
      requires Inv(st0) && Valid() && IsDir(st0, d) && r < USER && x < ENTRIES && lo <= a == Vpn(r, x)
      requires Grown(st0, State(), d, lo, a, want)
      requires ViewAt(st0.mem, d, r, x) == Absent && want(r, x).Mapped? && want(r, x).flags == flags
      requires want(r, x).page == page
      modifies this
      ensures Valid()
      ensures ok ==> Grown(st0, State(), d, lo, a + 1, want)
      ensures !ok ==> Stuck(st0, State(), d, lo, a, want, p)
      ensures ok ==> HasTable(mem, d, r) && OtherTables(old(mem), mem, d, r)
      ensures ok ==> |fl| == |old(fl)| - if old(HasTable(mem, d, r)) then 1 else 2
      ensures !ok ==> if p == 0 then old(fl) == [] else !old(HasTable(mem, d, r)) && |old(fl)| == 1
    {
      ghost var st := State();
      PresentIff(st, d, r, x);
      p, ok := AddPage(d, r, x, page, flags);
      if ok {
        GrowStep(st0, st, State(), d, lo, a, r, x, Mapped(p, flags, page), want);
      } else {
        GivesUp(st0, st, State(), d, lo, a, want, p);
      }
    }

    // kfree of a page that was never mapped.
    method FreeHeld(p: nat)
      requires Valid() && p in owner && p in mem && owner[p] == Held
      modifies this
      ensures Valid() && SameViews(old(State()), State()) && owner == old(owner)[p := Free]
    {
      ghost var st := State();
      GiveStep(st, p);
      HeldViews(st, St(mem[p := Junk(head)], p, [p] + fl, owner[p := Free]), p);
      Kfree(p);
      owner := owner[p := Free];
    }

    // vm.c:237-245: what was added is given back.
    method GiveUp(d: nat, oldsz: nat, newsz: nat, p: nat, ghost st0: St, ghost a: nat, ghost want: (nat, nat) -> View)
      requires Inv(st0) && Valid() && IsDir(st0, d) && Stuck(st0, State(), d, Pages(oldsz), a, want, p)
      requires Sized(st0.mem, d, Pages(oldsz)) && oldsz < newsz < KERNBASE && Pages(oldsz) <= a <= Pages(newsz)
      modifies this
      ensures Valid() && SameViews(st0, State()) && OnlyTables(st0.owner, owner, d)
    {
      ghost var st := State();
      var back;
      ghost var seen;
      back, seen := Deallocuvm(d, newsz, oldsz);
      UndoViews(st0, st, State(), d, Pages(oldsz), a, Pages(newsz), want, seen);
      UndoOwners(st0, st, d, Pages(oldsz), a, Pages(newsz), want, seen, p);
      OnlyTablesLeft(st0.owner, st.owner, owner, d, seen, p);
      if p != 0 {
        FreeHeld(p);
      }
    }

    /** allocuvm: on success the pages from the old size to the new are there, zeroed, in frames that were free; on
        failure every address space is as it was, and only page tables have been added. */
    method Allocuvm(d: nat, oldsz: nat, newsz: nat) returns (r: nat, ghost ok: bool)
      requires Valid() && IsDir(State(), d) && Sized(mem, d, Pages(oldsz)) && oldsz < KERNBASE
      modifies this
      ensures Valid()
      ensures newsz >= KERNBASE ==> r == 0 && !ok && unchanged(this)
      ensures newsz < oldsz ==> (newsz < KERNBASE ==> r == oldsz && ok && unchanged(this))
      ensures oldsz <= newsz && ok ==> r == newsz && Sized(mem, d, Pages(newsz))
      ensures oldsz <= newsz && ok ==> Grown(old(State()), State(), d, Pages(oldsz), Pages(newsz), Blank())
      ensures oldsz <= newsz && ok ==>
        forall r, x | 0 <= r < USER && 0 <= x < ENTRIES && Pages(oldsz) <= r * ENTRIES + x < Pages(newsz) ::
          var v := ViewAt(mem, d, r, x);
          && v.Mapped? && v.flags == PTE_W + PTE_U && v.frame in old(owner) && old(owner)[v.frame] == Free
          && forall i | 0 <= i < ENTRIES :: v.page[i] == Word(0, 0, false)
      ensures oldsz <= newsz && !ok ==> r == 0 && SameViews(old(State()), State()) && OnlyTables(old(owner), owner, d)
      ensures oldsz <= newsz < KERNBASE ==> (ok <==> |old(fl)| >= Takeup(old(mem), d, Pages(oldsz), Pages(newsz)))
      ensures oldsz <= newsz && ok ==> |fl| == |old(fl)| - Takeup(old(mem), d, Pages(oldsz), Pages(newsz))
    {
      if newsz >= KERNBASE { return 0, false; }
      if newsz < oldsz { return oldsz, true; }
      r, ok := GrowTo(d, oldsz, newsz);
      if ok { NewZeroed(old(State()), State(), d, Pages(oldsz), Pages(newsz)); }
    }

    // The zeroed page at a.
    method GrowPage(d: nat, a: nat, ghost st0: St, ghost lo: nat, ghost n: nat) returns (p: nat, ok: bool)
      requires Inv(st0) && Valid() && IsDir(st0, d) && Sized(st0.mem, d, lo) && a < n <= USER * ENTRIES
      requires Growing(st0, State(), d, lo, a, n)
      modifies this
      ensures Valid() && (ok ==> Growing(st0, State(), d, lo, a + 1, n))
      ensures !ok ==> Stuck(st0, State(), d, lo, a, Blank(), p) && Leftover(st0, d, lo, n) < 0
    {
      OpenGrowing(st0, State(), d, lo, a, n);
      ghost var mem0 := mem;
      assert Vpn(a / ENTRIES, a % ENTRIES) == a;
      TooFew(mem, d, a, n);
      p, ok := AddAt(d, a, a / ENTRIES, a % ENTRIES, Zeros(), WU, st0, lo, Blank());
      if ok { TakeupNext(mem0, mem, d, a, n); }
    }

    // vm.c:232-247.
    method GrowTo(d: nat, oldsz: nat, newsz: nat) returns (r: nat, ghost ok: bool)
      requires Valid() && IsDir(State(), d) && Sized(mem, d, Pages(oldsz)) && oldsz <= newsz < KERNBASE
      modifies this
      ensures Valid()
      ensures ok ==> r == newsz && Grown(old(State()), State(), d, Pages(oldsz), Pages(newsz), Blank())
      ensures ok ==> Sized(mem, d, Pages(newsz))
      ensures !ok ==> r == 0 && SameViews(old(State()), State()) && OnlyTables(old(owner), owner, d)
      ensures ok <==> Leftover(old(State()), d, Pages(oldsz), Pages(newsz)) >= 0
      ensures ok ==> |fl| == Leftover(old(State()), d, Pages(oldsz), Pages(newsz))
    {
      ghost var st0 := State();
      var done, a, p := GrowLoop(d, oldsz, newsz);
      if !done {
        GiveUp(d, oldsz, newsz, p, st0, a, Blank());
        return 0, false;
      }
      GrownSized(st0, State(), d, Pages(oldsz), Pages(newsz), Blank());
      return newsz, true;
    }

    // The allocating loop; a is the page it stopped at.
    method GrowLoop(d: nat, oldsz: nat, newsz: nat) returns (ok: bool, a: nat, p: nat)
      requires Valid() && IsDir(State(), d) && Sized(mem, d, Pages(oldsz)) && oldsz <= newsz < KERNBASE
      modifies this
      ensures Valid()
      ensures ok ==> Grown(old(State()), State(), d, Pages(oldsz), Pages(newsz), Blank())
      ensures !ok ==> Stuck(old(State()), State(), d, Pages(oldsz), a, Blank(), p) && Pages(oldsz) <= a < Pages(newsz)
      ensures ok <==> Leftover(old(State()), d, Pages(oldsz), Pages(newsz)) >= 0
      ensures ok ==> |fl| == Leftover(old(State()), d, Pages(oldsz), Pages(newsz))
    {
      ghost var st0, n := State(), Pages(newsz);
      a := Pages(oldsz);
      GrownNothing(st0, d, a, Blank());
      while a * 4096 < newsz
        invariant Valid() && Growing(st0, State(), d, Pages(oldsz), a, n)
        decreases newsz - a * 4096
      {
        PageBelow(a, newsz);
        p, ok := GrowPage(d, a, st0, Pages(oldsz), n);
        if !ok { return; }
        a := a + 1;
      }
      PageBelow(a, newsz);
      OpenGrowing(st0, State(), d, Pages(oldsz), a, n);
      return true, a, 0;
    }

    // kfree of the table in directory entry g, if there is one.
    method FreeTable(d: nat, g: nat, ghost st0: St)
      requires Teardown(st0, State(), d, g) && g < ENTRIES
      modifies this
      ensures Teardown(st0, State(), d, g + 1)
    {
      ghost var st := State();
      TableFacts(st0, st, d, g);
      if mem[d][g].p {
        var t := mem[d][g].ppn;
        Kfree(t);
        owner := owner[t := Free];
        TableFreed(st0, st, State(), d, g);
      } else {
        NoTable(st0, st, d, g);
      }
    }

    /** freevm: the directory, its tables and its user pages all go back to the free list, whatever the address
        space looked like; no other page and no other address space changes. */
    method Freevm(d: nat)
      requires Valid() && IsDir(State(), d)
      modifies this
      ensures Valid() && GaveAll(old(owner), owner, d) && OthersSame(old(State()), State(), d)
      ensures owner.Keys == old(owner).Keys && forall q | q in owner ::
        var o := old(owner)[q];
        owner[q] == if q == d || (o.Table? && o.d == d) || (o.Leaf? && o.d == d) then Free else o
    {
      ghost var st0 := State();
      var sz;
      ghost var seen;
      sz, seen := Deallocuvm(d, KERNBASE, 0);
      StartTeardown(st0, State(), d, seen);
      FreeTables(d, st0);
      FreeDir(d, st0);
    }

    method FreeTables(d: nat, ghost st0: St)
      requires Teardown(st0, State(), d, 0)
      modifies this
      ensures Teardown(st0, State(), d, ENTRIES)
    {
      var i := 0;
      while i < ENTRIES
        invariant 0 <= i <= ENTRIES && Teardown(st0, State(), d, i)
      {
        FreeTable(d, i, st0);
        i := i + 1;
      }
      assert i == ENTRIES;
    }

    method FreeDir(d: nat, ghost st0: St)
      requires Teardown(st0, State(), d, ENTRIES)
      modifies this
      ensures Valid() && GaveAll(st0.owner, owner, d) && OthersSame(st0, State(), d)
    {
      ghost var st := State();
      HeadInRange(st, d, ENTRIES);
      Kfree(d);
      owner := owner[d := Free];
      DropDir(st, State(), d);
      DirOwners(st0, st, State(), d);
      DirOthers(st0, st, State(), d);
    }

    // mappages for kernel page a.
    method MapKernel(d: nat, a: nat, pa: nat, perm: nat, ghost data: nat, ghost st0: St) returns (ok: bool)
      requires Building(st0, State(), d, data, a) && KERN <= a < TOP && Kview(data, a) == Mapped(pa, perm, Zeros())
      modifies this
      ensures ok ==> Building(st0, State(), d, data, a + 1)
      ensures !ok ==> Building(st0, State(), d, data, a) && fl == [] && TablesFor(a) < 64
    {
      ghost var st := State();
      NeedsTable(mem, d, data, a);
      var r, x := a / ENTRIES, a % ENTRIES;
      var t := WalkPgdir(d, r, true);
      if t == 0 {
        TablesBound(data, a);
        return false;
      }
      NoRemap(st, State(), d, data, a);
      ghost var st1 := State();
      mem := mem[t := mem[t][x := Word(pa, perm, true)]];
      BuildStep(st0, st, st1, State(), d, data, a, Word(pa, perm, true));
      return true;
    }

    // mappages for one region of kmap; on failure `at` is the page it stopped at.
    method MapRegion(d: nat, k: nat, data: nat, ghost st0: St) returns (ok: bool, ghost at: nat)
      requires IsData(data) && k < 4 && Building(st0, State(), d, data, At(data, k))
      modifies this
      ensures ok ==> Building(st0, State(), d, data, At(data, k + 1))
      ensures !ok ==> Building(st0, State(), d, data, at) && fl == [] && TablesFor(at) < 64
    {
      var g := Kmap(data)[k];
      var a, pa := g.virt, g.start;
      assert pa <= g.end;
      while pa < g.end
        invariant g.virt <= a && g.virt + pa == g.start + a && pa <= g.end && Building(st0, State(), d, data, a)
      {
        RegionView(data, k, a, pa);
        ok := MapKernel(d, a, pa, g.perm, data, st0);
        if !ok { return false, a; }
        a, pa := a + 1, pa + 1;
      }
      RegionDone(st0, State(), d, data, k, a);
      return true, a;
    }

    /** setupkvm takes 65 pages and maps exactly the kernel's half.  With fewer free pages it fails, and all of
        them are lost. */
    method Setupkvm(data: nat) returns (d: nat)
      requires Valid() && IsData(data)
      modifies this
      ensures Valid() && SameViews(old(State()), State())
      ensures d == 0 <==> |old(fl)| < 65
      ensures d == 0 ==> fl == [] && AllLost(old(owner), owner)
      ensures d != 0 ==> IsDir(State(), d) && NewSpace(old(owner), owner, d) && |fl| == |old(fl)| - 65
      ensures d != 0 ==> KernelHalf(mem, d, data) && Sized(mem, d, 0) && NoUserTables(mem, d)
      ensures d != 0 ==> forall r, x | 0 <= r < ENTRIES && 0 <= x < ENTRIES ::
        var a, v := r * 1024 + x, ViewAt(mem, d, r, x);
        && (0x80000 <= a < 0x80000 + LIMIT ==> v.Mapped? && v.frame == a - 0x80000)
        && (0x80000 <= a < 0x80000 + LIMIT ==> v.flags == if 0x100 <= v.frame < data then 0 else PTE_W)
        && (a < 0x80000 || 0x80000 + LIMIT <= a < 0xFE000 ==> v.Absent?)
        && (0xFE000 <= a ==> v.Mapped? && v.frame == a && v.flags == PTE_W)
    {
      ghost var st0 := State();
      d := Kalloc();
      if d == 0 {
        NoneFree(State());
        return;
      }
      ghost var st := State();
      mem := mem[d := Zeros()];
      owner := owner[d := Dir];
      BuildStart(st0, st, State(), d, data);
      var k := 0;
      while k < 4
        invariant 0 <= k <= 4 && Building(st0, State(), d, data, At(data, k))
      {
        var ok;
        ghost var at;
        ok, at := MapRegion(d, k, data, st0);
        if !ok {
          ghost var st1 := State();
          owner := Forgotten(owner, d);
          Abandoned(st0, st1, State(), d, data, at);
          return 0;
        }
        k := k + 1;
      }
      assert At(data, k) == TOP;
      TablesBound(data, TOP - ENTRIES);
      forall r, x | USER <= r < ENTRIES && 0 <= x < ENTRIES { KernelHalfIs(mem, d, data, r, x); }
    }

    // The parent's page at (r, x): whether it is present, its flags and contents.
    method ReadPte(d: nat, r: nat, x: nat) returns (v: View)
      requires Valid() && IsDir(State(), d) && r < USER && x < ENTRIES
      modifies this
      ensures unchanged(this) && v == ViewAt(mem, d, r, x)
    {
      PresentIff(State(), d, r, x);
      var t := WalkPgdir(d, r, false);
      if t == 0 || !mem[t][x].p { return Absent; }
      var pa := mem[t][x].ppn;
      return Mapped(pa, mem[t][x].flags, mem[pa]);
    }

    /** copyuvm.  On success the child has copies of exactly the parent's pages below sz, with equal contents and
        flags, in frames that were free, and the kernel's half; nothing else changes.  It panics if and only if one
        of the pages is absent and memory lasts until it is reached, and fails if and only if it does not last until
        then or until the end.  If it runs out within setupkvm, all of it is lost; if it runs out later, the child is
        gone again, and one page is lost if it was the last one and its table was missing. */
    method Copyuvm(d: nat, sz: nat, data: nat) returns (r: CopyResult, child: nat, ghost lost: nat)
      requires Valid() && IsDir(State(), d) && sz <= KERNBASE && IsData(data)
      modifies this
      ensures r.NoMemory? <==> |old(fl)| < 65 + Cost(FirstAbsent(old(mem), d, 0, Pages(sz)))
      ensures r.Panics? <==> !r.NoMemory? && FirstAbsent(old(mem), d, 0, Pages(sz)) < Pages(sz)
      ensures r.Panics? ==> !old(Sized(mem, d, Pages(sz)))
      ensures !r.Panics? ==> Valid() && SameViews(old(State()), State())
      ensures r.Copied? ==> Copy(old(State()), State(), d, child, Pages(sz), data) && OnlyTo(old(owner), owner, child)
      ensures r.Copied? ==>
        forall r, x | 0 <= r < USER && 0 <= x < ENTRIES ::
          var v, u := ViewAt(mem, child, r, x), ViewAt(old(mem), d, r, x);
          if r * ENTRIES + x >= Pages(sz) then v.Absent?
          else v.Mapped? && u.Mapped? && v.flags == u.flags && v.page == u.page
               && v.frame in old(owner) && old(owner)[v.frame] == Free
      ensures r.NoMemory? && |old(fl)| < 65 ==> AllLost(old(owner), owner)
      ensures r.NoMemory? && |old(fl)| >= 65 ==> owner == if lost == 0 then old(owner) else old(owner)[lost := Held]
      ensures r.NoMemory? && |old(fl)| >= 65 ==> (lost != 0 <==> (|old(fl)| - 65) % (ENTRIES + 1) == 1)
    {
      ghost var st0 := State();
      child := Setupkvm(data);
      if child == 0 { return NoMemory, 0, 0; }
      ghost var st1 := State();
      SameAbsent(st0, st1, d, Pages(sz));
      ghost var w := FirstAbsent(st0.mem, d, 0, Pages(sz));
      if w < Pages(sz) { AbsentUnsized(st0.mem, d, Pages(sz)); }
      var a;
      r, a, lost := CopyAll(d, sz, child);
      if r.NoMemory? {
        ghost var st := State();
        Freevm(child);
        CopyUndone(st1, st, State(), child, a, Of(st1.mem, d), lost);
        CopyFailed(st0, st1, State(), child, lost);
        WhereItRunsOut(|st1.fl|, a, lost, w);
      } else if r.Copied? {
        GrownSized(st1, State(), child, 0, a, Of(st1.mem, d));
        CopyDone(st0, st1, State(), d, child, a, data);
        CopyIs(st0, State(), d, child, a, data);
      }
    }

    // The copying loop; a is the page it stopped at.
    method CopyAll(d: nat, sz: nat, d2: nat) returns (r: CopyResult, a: nat, p: nat)
      requires Valid() && IsDir(State(), d) && sz <= KERNBASE && IsDir(State(), d2) && d2 != d && Sized(mem, d2, 0)
      requires NoUserTables(mem, d2)
      modifies this
      ensures Valid()
      ensures r.Copied? ==> a == Pages(sz) && Grown(old(State()), State(), d2, 0, a, Of(old(mem), d))
      ensures !r.NoMemory? ==> |old(fl)| >= Cost(a) && a == FirstAbsent(old(mem), d, 0, Pages(sz))
      ensures r.NoMemory? ==> a < FirstAbsent(old(mem), d, 0, Pages(sz))
      ensures r.NoMemory? ==> Stuck(old(State()), State(), d2, 0, a, Of(old(mem), d), p)
      ensures r.NoMemory? ==> RunsOut(|old(fl)|, a, p)
      ensures r.Panics? ==> a < Pages(sz)
    {
      ghost var st0 := State();
      a := 0;
      GrownNothing(st0, d2, 0, Of(mem, d));
      while a * 4096 < sz
        invariant Valid() && Grown(st0, State(), d2, 0, a, Of(st0.mem, d))
        invariant a <= Pages(sz) && FirstAbsent(st0.mem, d, 0, Pages(sz)) == FirstAbsent(st0.mem, d, a, Pages(sz))
        invariant UserTables(mem, d2, a) && |fl| + Cost(a) == |st0.fl|
        decreases sz - a * 4096
      {
        PageBelow(a, sz);
        p, r := CopyPage(d, d2, a, a / ENTRIES, a % ENTRIES, st0);
        if !r.Copied? { return r, a, p; }
        a := a + 1;
      }
      PageBelow(a, sz);
      assert a == Pages(sz);
      return Copied, a, 0;
    }

    method CopyPage(d: nat, d2: nat, a: nat, r: nat, x: nat, ghost st0: St) returns (p: nat, c: CopyResult)
      requires Inv(st0) && Valid() && IsDir(st0, d) && IsDir(st0, d2) && d2 != d && r < USER && x < ENTRIES
      requires a == Vpn(r, x)
      requires Sized(st0.mem, d2, 0) && Grown(st0, State(), d2, 0, a, Of(st0.mem, d)) && UserTables(mem, d2, a)
      modifies this
      ensures Valid()
      ensures c.Panics? <==> ViewAt(st0.mem, d, r, x) == Absent
      ensures c.Copied? ==> Grown(st0, State(), d2, 0, a + 1, Of(st0.mem, d))
      ensures c.Copied? ==> UserTables(mem, d2, a + 1) && |fl| + Cost(a + 1) == |old(fl)| + Cost(a)
      ensures c.NoMemory? ==> Stuck(st0, State(), d2, 0, a, Of(st0.mem, d), p) && RunsOut(|old(fl)| + Cost(a), a, p)
    {
      var v := ReadPte(d, r, x);
      if v.Absent? { return 0, Panics; }
      VpnSplit(r, x);
      CostGrows(a, a + 1);
      ghost var mem0 := mem;
      var ok;
      p, ok := AddAt(d2, a, r, x, v.page, v.flags, st0, 0, Of(st0.mem, d));
      if ok { UserTablesGrow(mem0, mem, d2, a, r, x); }
      c := if ok then Copied else NoMemory;
    }
  }
}
