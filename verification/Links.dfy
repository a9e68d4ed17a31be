/** Directories and link counts (fs.c:508-564, sysfile.c:116-283).

    An inode's contents appear here only for directories, as the list of directory entries;
    an entry with inode number 0 is an empty slot.  System calls are atomic. */
module Directory {
  import opened Options

  datatype Entry = Entry(inum: nat, name: string)

  datatype Kind = Free | Dir | File | Dev

  // `ref` counts the open files and current directories that refer to the inode.
  datatype Inode = Inode(kind: Kind, nlink: int, ref: nat, entries: seq<Entry>)

  const EMPTY: Entry := Entry(0, "")

  /* ---- looking up and adding entries ---- */

  predicate Matches(e: Entry, name: string) {
    e.inum != 0 && e.name == name
  }

  // r is the first entry with that name.
  ghost predicate IsLookup(es: seq<Entry>, name: string, r: Option<nat>) {
    match r
    case Some(k) => k < |es| && Matches(es[k], name) && forall j | 0 <= j < k :: !Matches(es[j], name)
    case None => forall j | 0 <= j < |es| :: !Matches(es[j], name)
  }

  // Entry k is the first in use that has the name.
  ghost predicate FirstNamed(es: seq<Entry>, name: string, k: nat) {
    && k < |es| && es[k].inum != 0 && es[k].name == name
    && forall j | 0 <= j < k :: es[j].inum == 0 || es[j].name != name
  }

  ghost predicate NotNamed(es: seq<Entry>, name: string) {
    forall j | 0 <= j < |es| :: es[j].inum == 0 || es[j].name != name
  }

  // Of the entries es only number k has changed: e is in the first empty slot, or else at the end.
  ghost predicate Entered(es: seq<Entry>, es': seq<Entry>, e: Entry, k: nat) {
    && k <= |es| && (forall j | 0 <= j < k :: es[j].inum != 0) && (k < |es| ==> es[k].inum == 0)
    && |es'| == (if k < |es| then |es| else |es| + 1) && es'[k] == e
    && forall j | 0 <= j < |es| && j != k :: es'[j] == es[j]
  }

  method Lookup(es: seq<Entry>, name: string) returns (r: Option<nat>)
    ensures IsLookup(es, name, r)
    ensures match r case Some(k) => FirstNamed(es, name, k) case None => NotNamed(es, name)
  {
    var off := 0;
    while off < |es|
      invariant 0 <= off <= |es| && forall j | 0 <= j < off :: !Matches(es[j], name)
    {
      if es[off].inum != 0 && es[off].name == name {
        return Some(off);
      }
      off := off + 1;
    }
    return None;
  }

  // Where dirlink puts a new entry: the first empty slot, or the end.
  function SlotFor(es: seq<Entry>): (k: nat)
    ensures k <= |es| && (k < |es| ==> es[k].inum == 0) && forall j | 0 <= j < k :: es[j].inum != 0
  {
    if es == [] || es[0].inum == 0 then 0 else 1 + SlotFor(es[1..])
  }

  function Added(es: seq<Entry>, e: Entry): seq<Entry> {
    var k := SlotFor(es);
    if k < |es| then es[k := e] else es + [e]
  }

  method DirLink(es: seq<Entry>, e: Entry) returns (ok: bool, es': seq<Entry>)
    ensures ok <==> NotNamed(es, e.name)
    ensures es' == if ok then Added(es, e) else es
    ensures ok ==> exists k: nat :: Entered(es, es', e, k)
  {
    var present := Lookup(es, e.name);
    if present.Some? {
      return false, es;
    }
    var off := 0;
    while off < |es| && es[off].inum != 0
      invariant 0 <= off <= |es| && forall j | 0 <= j < off :: es[j].inum != 0
    {
      off := off + 1;
    }
    assert off == SlotFor(es);
    es' := if off < |es| then es[off := e] else es + [e];
    assert Entered(es, es', e, off);
    return true, es';
  }

  // isdirempty: nothing beyond "." and "..".
  predicate OnlyDots(es: seq<Entry>) {
    forall k | 2 <= k < |es| :: es[k].inum == 0
  }

  method IsDirEmpty(es: seq<Entry>) returns (empty: bool)
    ensures empty <==> forall k | 2 <= k < |es| :: es[k].inum == 0
  {
    var off := 2;
    while off < |es|
      invariant 2 <= off && forall k | 2 <= k < off && k < |es| :: es[k].inum == 0
    {
      if es[off].inum != 0 { return false; }
      off := off + 1;
    }
    return true;
  }

  /* ---- counting references ---- */

  function Names(e: Entry, i: nat): nat {
    if i != 0 && e.inum == i && e.name != "." then 1 else 0
  }

  function CountIn(es: seq<Entry>, i: nat): nat {
    if es == [] then 0 else CountIn(es[..|es| - 1], i) + Names(es[|es| - 1], i)
  }

  lemma {:induction false} CountUpdate(es: seq<Entry>, k: nat, e: Entry, i: nat)
    requires k < |es|
    ensures CountIn(es[k := e], i) == CountIn(es, i) - Names(es[k], i) + Names(e, i)
  {
    var n := |es| - 1;
    if k < n {
      assert es[k := e][..n] == es[..n][k := e];
      CountUpdate(es[..n], k, e, i);
    } else {
      assert es[k := e][..n] == es[..n];
    }
  }

  lemma CountAdded(es: seq<Entry>, e: Entry, i: nat)
    ensures CountIn(Added(es, e), i) == CountIn(es, i) + Names(e, i)
  {
    var k := SlotFor(es);
    if k < |es| {
      CountUpdate(es, k, e, i);
    } else {
      assert (es + [e])[..|es|] == es;
    }
  }

  lemma {:induction false} CountZero(es: seq<Entry>, i: nat)
    ensures CountIn(es, i) == 0 <==> forall k | 0 <= k < |es| :: Names(es[k], i) == 0
  {
    if es != [] {
      var n := |es| - 1;
      CountZero(es[..n], i);
      assert forall k | 0 <= k < n :: es[..n][k] == es[k];
    }
  }

  // A directory that is still linked somewhere.
  predicate Live(ip: Inode) {
    ip.kind == Dir && ip.nlink > 0
  }

  function Contrib(ip: Inode, i: nat): nat {
    if Live(ip) then CountIn(ip.entries, i) else 0
  }

  // Entries in live directories that name inode i, not counting ".".
  function Refs(t: seq<Inode>, i: nat): nat {
    if t == [] then 0 else Refs(t[..|t| - 1], i) + Contrib(t[|t| - 1], i)
  }

  lemma {:induction false} RefsUpdate(t: seq<Inode>, d: nat, ip: Inode, i: nat)
    requires d < |t|
    ensures Refs(t[d := ip], i) == Refs(t, i) - Contrib(t[d], i) + Contrib(ip, i)
  {
    var n := |t| - 1;
    if d < n {
      assert t[d := ip][..n] == t[..n][d := ip];
      RefsUpdate(t[..n], d, ip, i);
    } else {
      assert t[d := ip][..n] == t[..n];
    }
  }

  lemma {:induction false} RefsZero(t: seq<Inode>, i: nat)
    ensures Refs(t, i) == 0 <==> forall d | 0 <= d < |t| :: Contrib(t[d], i) == 0
  {
    if t != [] {
      var n := |t| - 1;
      RefsZero(t[..n], i);
      assert forall d | 0 <= d < n :: t[..n][d] == t[d];
    }
  }
}

/** link, unlink, create, open and close as steps on the inode table, and what every run of
    them keeps (sysfile.c:116-283, fs.c:312-334). */
module LinkCounts {
  import opened Directory
  import opened Options

  const ROOTINO: nat := 1

  type Table = seq<Inode>

  /* ---- the system calls ---- */

  datatype Outcome = Ok(t: Table) | Fail(t: Table) | Panic

  function Find(es: seq<Entry>, name: string): (r: Option<nat>)
    ensures IsLookup(es, name, r)
  {
    if es == [] then None
    else if Matches(es[0], name) then Some(0)
    else match Find(es[1..], name)
      case None => None
      case Some(k) => Some(k + 1)
  }

  // ialloc: the first free inode from 1 on.
  function FreeInode(t: Table): (r: Option<nat>)
    ensures r.Some? ==> 1 <= r.value < |t| && t[r.value].kind == Free
    ensures r.Some? ==> forall i | 1 <= i < r.value :: t[i].kind != Free
    ensures r.None? ==> forall i | 1 <= i < |t| :: t[i].kind != Free
  {
    if |t| <= 1 then None
    else
      match FreeInode(t[..|t| - 1])
      case Some(i) => Some(i)
      case None => if t[|t| - 1].kind == Free then Some(|t| - 1) else None
  }

  // iput of the last reference to an inode with no links frees it.
  function Put(t: Table, i: nat): Table
    requires i < |t|
  {
    if t[i].ref == 0 && t[i].nlink == 0 && t[i].kind != Free then t[i := Inode(Free, 0, 0, [])] else t
  }

  function NewInode(kind: Kind, ip: nat, dp: nat): Inode {
    Inode(kind, 1, 1, if kind == Dir then [Entry(ip, "."), Entry(dp, "..")] else [])
  }

  predicate IsDir(t: Table, d: nat) {
    d < |t| && t[d].kind == Dir
  }

  predicate Plain(ip: Inode) {
    ip.kind == File || ip.kind == Dev
  }

  function Created(t: Table, dp: nat, name: string, kind: Kind, ip: nat): Table
    requires ip < |t| && dp < |t|
  {
    var parent := t[dp].(nlink := t[dp].nlink + (if kind == Dir then 1 else 0),
                         entries := Added(t[dp].entries, Entry(ip, name)));
    t[ip := NewInode(kind, ip, dp)][dp := parent]
  }

  // create, in the directory dp that nameiparent found; the caller keeps a reference.  The panics
  // are "ilock: no type" for an entry that names a free inode, and "ialloc: no inodes".
  function Create(t: Table, dp: nat, name: string, kind: Kind): Outcome {
    if !IsDir(t, dp) || kind == Free then Fail(t)
    else
      match Find(t[dp].entries, name)
      case Some(k) =>
        var ip := t[dp].entries[k].inum;
        if ip >= |t| || t[ip].kind == Free then Panic
        else if kind == File && t[ip].kind == File then Ok(t[ip := t[ip].(ref := t[ip].ref + 1)])
        else Fail(Put(t, ip))
      case None =>
        match FreeInode(t)
        case None => Panic
        case Some(ip) => Ok(Created(t, dp, name, kind, ip))
  }

  function Linked(t: Table, ip: nat, dp: nat, name: string): Table
    requires ip < |t| && dp < |t|
  {
    t[ip := t[ip].(nlink := t[ip].nlink + 1)][dp := t[dp].(entries := Added(t[dp].entries, Entry(ip, name)))]
  }

  // sys_link: dp is None when nameiparent finds no directory.
  function Link(t: Table, ip: nat, dp: Option<nat>, name: string): Outcome {
    if ip >= |t| || !Plain(t[ip]) then Fail(t)
    else
      var t1 := t[ip := t[ip].(nlink := t[ip].nlink + 1)];
      if dp.None? || !IsDir(t1, dp.value) || Find(t1[dp.value].entries, name).Some?
      then Fail(Put(t1[ip := t1[ip].(nlink := t1[ip].nlink - 1)], ip))
      else Ok(Linked(t, ip, dp.value, name))
  }

  // Clear entry k of dp, which names ip; a removed directory's ".." no longer counts.
  function Removed(t: Table, dp: nat, k: nat, ip: nat): Table
    requires dp < |t| && ip < |t| && k < |t[dp].entries|
  {
    var t1 := t[dp := t[dp].(nlink := t[dp].nlink - (if t[ip].kind == Dir then 1 else 0),
                             entries := t[dp].entries[k := EMPTY])];
    t1[ip := t1[ip].(nlink := t1[ip].nlink - 1)]
  }

  // sys_unlink of the entry `name` of dp.
  function Unlink(t: Table, dp: nat, name: string): Outcome {
    if !IsDir(t, dp) || name == "." || name == ".." then Fail(t)
    else
      match Find(t[dp].entries, name)
      case None => Fail(t)
      case Some(k) =>
        var ip := t[dp].entries[k].inum;
        if ip >= |t| || t[ip].nlink < 1 then Panic
        else if t[ip].kind == Dir && !OnlyDots(t[ip].entries) then Fail(t)
        else
          Ok(Put(Removed(t, dp, k, ip), ip))
  }

  function Open(t: Table, i: nat): Outcome {
    if i >= |t| || t[i].kind == Free then Fail(t) else Ok(t[i := t[i].(ref := t[i].ref + 1)])
  }

  function Close(t: Table, i: nat): Outcome {
    if i >= |t| || t[i].ref == 0 then Fail(t) else Ok(Put(t[i := t[i].(ref := t[i].ref - 1)], i))
  }

  /* ---- the invariant ---- */

  function Parent(t: Table, d: nat): nat
    requires d < |t| && |t[d].entries| >= 2
  {
    t[d].entries[1].inum
  }

  // An inode's link count is the number of entries that name it.
  ghost predicate CountOk(t: Table, i: nat)
    requires i < |t|
  {
    if t[i].kind == Free then Refs(t, i) == 0 else t[i].nlink == Refs(t, i)
  }

  // "." and ".." come first and only there.
  ghost predicate DirShape(t: Table, d: nat)
    requires d < |t|
  {
    t[d].kind == Dir ==>
      var es := t[d].entries;
      && |es| >= 2 && es[0] == Entry(d, ".") && es[1].name == ".." && 1 <= es[1].inum < |t|
      && forall k | 2 <= k < |es| && es[k].inum != 0 :: es[k].name != "." && es[k].name != ".."
  }

  ghost predicate HasEntry(es: seq<Entry>, i: nat) {
    exists k | 2 <= k < |es| :: es[k].inum == i
  }

  // A linked directory is the root, or is named in the linked directory its ".." names.
  ghost predicate TreeOk(t: Table, d: nat)
    requires d < |t| && DirShape(t, d)
  {
    Live(t[d]) ==>
      && Parent(t, d) < |t| && Live(t[Parent(t, d)])
      && (d == ROOTINO <==> Parent(t, d) == d)
      && (d != ROOTINO ==> HasEntry(t[Parent(t, d)].entries, d))
  }

  // Following ".." n times from d leads to the root, through linked directories.
  ghost predicate Reaches(t: Table, d: nat, n: nat)
    decreases n
  {
    && d < |t| && Live(t[d]) && |t[d].entries| >= 2
    && if n == 0 then d == ROOTINO else d != ROOTINO && Reaches(t, Parent(t, d), n - 1)
  }

  ghost predicate Rooted(t: Table, d: nat)
    requires d < |t|
  {
    Live(t[d]) ==> exists n: nat :: Reaches(t, d, n)
  }

  ghost predicate OnlyChild(t: Table, x: nat, k: nat, i: nat)
    requires x < |t| && i < |t|
  {
    && i != ROOTINO && Live(t[i]) && |t[i].entries| >= 2 && Parent(t, i) == x
    && forall m | 2 <= m < |t[x].entries| && m != k :: t[x].entries[m].inum != i
  }

  // An entry of a linked directory x names an allocated inode; a directory is named only once,
  // by its parent.
  ghost predicate EntryOk(t: Table, x: nat, k: nat)
    requires x < |t| && 2 <= k < |t[x].entries|
  {
    var i := t[x].entries[k].inum;
    Live(t[x]) && i != 0 ==>
      && i < |t| && t[i].kind != Free
      && (t[i].kind == Dir ==> OnlyChild(t, x, k, i))
  }

  // An inode without links is kept only while someone refers to it.
  ghost predicate HeldOk(t: Table, i: nat)
    requires i < |t|
  {
    if t[i].kind == Free then t[i].ref == 0 else t[i].nlink > 0 || t[i].ref > 0
  }

  // A directory that was removed holds only "." and "..".
  ghost predicate DeadOk(t: Table, i: nat)
    requires i < |t|
  {
    t[i].kind == Dir && !Live(t[i]) ==> OnlyDots(t[i].entries)
  }

  ghost predicate Core(t: Table) {
    && |t| > ROOTINO && t[0].kind == Free && Live(t[ROOTINO])
    && (forall i | 1 <= i < |t| :: CountOk(t, i))
    && (forall d | 0 <= d < |t| :: DirShape(t, d))
    && (forall d | 0 <= d < |t| :: TreeOk(t, d))
    && (forall d | 0 <= d < |t| :: DeadOk(t, d))
    && (forall x, k | 0 <= x < |t| && 2 <= k < |t[x].entries| :: EntryOk(t, x, k))
  }

  // From every linked directory, ".." leads to the root.
  ghost predicate Tree(t: Table) {
    forall d | 0 <= d < |t| :: Rooted(t, d)
  }

  ghost predicate Inv(t: Table) {
    Core(t) && Tree(t) && forall i | 0 <= i < |t| :: HeldOk(t, i)
  }

  /* ---- who names whom ---- */

  // A name in a live directory counts.
  lemma NamedCounts(t: Table, x: nat, k: nat, i: nat)
    requires x < |t| && Live(t[x]) && k < |t[x].entries| && Names(t[x].entries[k], i) == 1
    ensures Refs(t, i) > 0
  {
    CountZero(t[x].entries, i);
    RefsZero(t, i);
  }

  // An inode nobody counts is in no linked directory, except as its own ".".
  lemma Unnamed(t: Table, i: nat, x: nat, k: nat)
    requires Core(t) && 1 <= i && Refs(t, i) == 0 && x < |t| && Live(t[x]) && 1 <= k < |t[x].entries|
    ensures t[x].entries[k].inum != i
  {
    assert DirShape(t, x);
    if t[x].entries[k].inum == i {
      NamedCounts(t, x, k, i);
    }
  }

  /* ---- the way to the root ---- */

  // Directory x is still linked, with the same "..".
  ghost predicate KeepsUp(t: Table, t': Table, x: nat) {
    && x < |t| == |t'| && Live(t'[x])
    && |t[x].entries| >= 2 && |t'[x].entries| >= 2 && t'[x].entries[1] == t[x].entries[1]
  }

  // All linked directories but `gone` keep their "..", and none of these is `gone`.
  ghost predicate SameParents(t: Table, t': Table, gone: nat) {
    forall x | 0 <= x < |t| && x != gone && Live(t[x]) :: KeepsUp(t, t', x) && t[x].entries[1].inum != gone
  }

  lemma {:induction false} ReachKeeps(t: Table, t': Table, gone: nat, d: nat, n: nat)
    requires SameParents(t, t', gone) && d != gone && Reaches(t, d, n)
    ensures Reaches(t', d, n)
    decreases n
  {
    assert KeepsUp(t, t', d);
    if n > 0 { ReachKeeps(t, t', gone, Parent(t, d), n - 1); }
  }

  lemma RootedKeeps(t: Table, t': Table, gone: nat, d: nat)
    requires SameParents(t, t', gone) && |t'| == |t| && d != gone && d < |t| && Live(t[d]) && Rooted(t, d)
    ensures Rooted(t', d)
  {
    var n: nat :| Reaches(t, d, n);
    ReachKeeps(t, t', gone, d, n);
  }

  // No directory is added.
  lemma SameTree(t: Table, t': Table, gone: nat)
    requires Tree(t) && SameParents(t, t', gone) && |t'| == |t|
    requires forall d | 0 <= d < |t| && Live(t'[d]) :: d != gone && Live(t[d])
    ensures Tree(t')
  {
    forall d | 0 <= d < |t'|
      ensures Rooted(t', d)
    {
      if Live(t'[d]) { RootedKeeps(t, t', gone, d); }
    }
  }

  lemma {:induction false} DepthUnique(t: Table, d: nat, n: nat, m: nat)
    requires Reaches(t, d, n) && Reaches(t, d, m)
    ensures n == m
    decreases n
  {
    if n > 0 && m > 0 { DepthUnique(t, Parent(t, d), n - 1, m - 1); }
  }

  // Following ".." k times from d leads to a.
  ghost predicate Above(t: Table, d: nat, k: nat, a: nat)
    decreases k
  {
    d < |t| && |t[d].entries| >= 2 && if k == 0 then a == d else Above(t, Parent(t, d), k - 1, a)
  }

  lemma {:induction false} AboveDepth(t: Table, d: nat, n: nat, k: nat, a: nat)
    requires Core(t) && Reaches(t, d, n) && Above(t, d, k, a)
    ensures Reaches(t, a, if k <= n then n - k else 0)
    decreases k
  {
    if k > 0 {
      assert TreeOk(t, d);
      AboveDepth(t, Parent(t, d), if n == 0 then 0 else n - 1, k - 1, a);
    }
  }

  // One entry of a table changes, and keeps its "..".
  lemma ChangeTree(t: Table, i: nat, ip: Inode)
    requires Core(t) && Tree(t) && i < |t| && (Live(ip) <==> Live(t[i]))
    requires Live(ip) ==> |ip.entries| >= 2 && |t[i].entries| >= 2 && ip.entries[1] == t[i].entries[1]
    ensures Tree(t[i := ip])
  {
    forall x | 0 <= x < |t| && Live(t[x])
      ensures KeepsUp(t, t[i := ip], x) && t[x].entries[1].inum != 0
    {
      assert DirShape(t, x);
    }
    SameTree(t, t[i := ip], 0);
  }

  /* ---- open, close and iput ---- */

  // Changing only an inode's reference count.
  lemma RefKeeps(t: Table, i: nat, r: nat)
    requires Core(t) && i < |t|
    ensures Core(t[i := t[i].(ref := r)])
  {
    var t' := t[i := t[i].(ref := r)];
    forall j | 1 <= j < |t|
      ensures CountOk(t', j)
    {
      assert CountOk(t, j);
      RefsUpdate(t, i, t'[i], j);
    }
    forall d | 0 <= d < |t|
      ensures DirShape(t', d) && TreeOk(t', d) && DeadOk(t', d)
    {
      assert DirShape(t, d) && TreeOk(t, d) && DeadOk(t, d);
    }
    forall x, k | 0 <= x < |t| && 2 <= k < |t[x].entries|
      ensures EntryOk(t', x, k)
    {
      assert EntryOk(t, x, k);
    }
  }

  /** An inode is freed only when no live entry names it. */
  lemma PutKeeps(t: Table, i: nat)
    requires Core(t) && Tree(t) && i < |t| && t[i].kind != Free && forall j | 0 <= j < |t| && j != i :: HeldOk(t, j)
    ensures Inv(Put(t, i))
    ensures Put(t, i) != t ==> Refs(t, i) == 0
  {
    var t' := Put(t, i);
    assert i > 0 ==> CountOk(t, i);
    if t' != t {
      ChangeTree(t, i, t'[i]);
      forall j | 1 <= j < |t|
        ensures CountOk(t', j)
      {
        assert CountOk(t, j);
        RefsUpdate(t, i, t'[i], j);
      }
      forall d | 0 <= d < |t|
        ensures DirShape(t', d) && TreeOk(t', d) && DeadOk(t', d)
      {
        assert DirShape(t, d) && TreeOk(t, d) && DeadOk(t, d);
      }
      forall x, k | 0 <= x < |t'| && 2 <= k < |t'[x].entries|
        ensures EntryOk(t', x, k)
      {
        assert EntryOk(t, x, k);
        if Live(t[x]) { Unnamed(t, i, x, k); }
      }
    }
    forall j | 0 <= j < |t'|
      ensures HeldOk(t', j)
    {
      if j != i { assert HeldOk(t, j); }
    }
  }

  lemma OpenKeeps(t: Table, i: nat)
    requires Inv(t) && Open(t, i).Ok?
    ensures Inv(Open(t, i).t)
  {
    RefKeeps(t, i, t[i].ref + 1);
    assert DirShape(t, i);
    ChangeTree(t, i, t[i].(ref := t[i].ref + 1));
    assert forall j | 0 <= j < |t| && HeldOk(t, j) :: HeldOk(Open(t, i).t, j);
  }

  lemma CloseKeeps(t: Table, i: nat)
    requires Inv(t) && Close(t, i).Ok?
    ensures Inv(Close(t, i).t)
  {
    RefKeeps(t, i, t[i].ref - 1);
    assert HeldOk(t, i) && DirShape(t, i);
    ChangeTree(t, i, t[i].(ref := t[i].ref - 1));
    var t1 := t[i := t[i].(ref := t[i].ref - 1)];
    assert forall j | 0 <= j < |t| && j != i && HeldOk(t, j) :: HeldOk(t1, j);
    PutKeeps(t1, i);
  }

  /* ---- link and create ---- */

  // The new entry goes after "..", over an empty slot or at the end.
  lemma AddedAt(t: Table, dp: nat, e: Entry) returns (k: nat)
    requires dp < |t| && DirShape(t, dp) && t[dp].kind == Dir && dp > 0
    ensures k == SlotFor(t[dp].entries) && 2 <= k < |Added(t[dp].entries, e)| && Added(t[dp].entries, e)[k] == e
    ensures |Added(t[dp].entries, e)| >= |t[dp].entries|
    ensures forall j | 0 <= j < |Added(t[dp].entries, e)| && j != k ::
              j < |t[dp].entries| && Added(t[dp].entries, e)[j] == t[dp].entries[j]
    ensures forall i | i > 0 && HasEntry(t[dp].entries, i) :: HasEntry(Added(t[dp].entries, e), i)
  {
    var es, es' := t[dp].entries, Added(t[dp].entries, e);
    k := SlotFor(es);
    forall i | i > 0 && HasEntry(es, i)
      ensures HasEntry(es', i)
    {
      var m :| 2 <= m < |es| && es[m].inum == i;
      assert es'[m].inum == i;
    }
  }

  // No entry can be called "." or "..": lookup would have found those.
  lemma NotDots(t: Table, dp: nat, name: string)
    requires dp < |t| && DirShape(t, dp) && t[dp].kind == Dir && dp > 0 && Find(t[dp].entries, name).None?
    ensures name != "." && name != ".."
  {
    assert !Matches(t[dp].entries[0], name) && !Matches(t[dp].entries[1], name);
  }

  lemma LinkCount(t: Table, ip: nat, dp: nat, name: string, j: nat)
    requires 1 <= j < |t| && CountOk(t, j)
    requires 0 < ip < |t| && Plain(t[ip]) && dp < |t| && Live(t[dp]) && name != "."
    ensures CountOk(Linked(t, ip, dp, name), j)
  {
    var t1 := t[ip := t[ip].(nlink := t[ip].nlink + 1)];
    RefsUpdate(t, ip, t1[ip], j);
    RefsUpdate(t1, dp, Linked(t, ip, dp, name)[dp], j);
    CountAdded(t[dp].entries, Entry(ip, name), j);
  }

  lemma LinkEntry(t: Table, ip: nat, dp: nat, name: string, x: nat, m: nat)
    requires Core(t) && 0 < ip < |t| && Plain(t[ip]) && dp < |t| && Live(t[dp])
    requires x < |t| && 2 <= m < |Linked(t, ip, dp, name)[x].entries|
    ensures EntryOk(Linked(t, ip, dp, name), x, m)
  {
    assert DirShape(t, dp);
    var k := AddedAt(t, dp, Entry(ip, name));
    if x != dp || m != k { assert EntryOk(t, x, m); }
  }

  // Linking a file into a live directory.
  lemma LinkCore(t: Table, ip: nat, dp: nat, name: string)
    requires Core(t) && 0 < ip < |t| && Plain(t[ip]) && dp < |t| && Live(t[dp]) && name != "." && name != ".."
    ensures Core(Linked(t, ip, dp, name))
  {
    var t2 := Linked(t, ip, dp, name);
    assert DirShape(t, dp);
    var k := AddedAt(t, dp, Entry(ip, name));
    forall j | 1 <= j < |t|
      ensures CountOk(t2, j)
    {
      LinkCount(t, ip, dp, name, j);
    }
    forall d | 0 <= d < |t|
      ensures DirShape(t2, d) && TreeOk(t2, d) && DeadOk(t2, d)
    {
      assert DirShape(t, d) && TreeOk(t, d) && DeadOk(t, d);
    }
    forall x, m | 0 <= x < |t2| && 2 <= m < |t2[x].entries|
      ensures EntryOk(t2, x, m)
    {
      LinkEntry(t, ip, dp, name, x, m);
    }
  }

  lemma LinkTree(t: Table, ip: nat, dp: nat, name: string)
    requires Core(t) && Tree(t) && 0 < ip < |t| && Plain(t[ip]) && dp < |t| && Live(t[dp])
    ensures Tree(Linked(t, ip, dp, name))
  {
    var t2 := Linked(t, ip, dp, name);
    assert DirShape(t, dp);
    var k := AddedAt(t, dp, Entry(ip, name));
    forall x | 0 <= x < |t| && Live(t[x])
      ensures KeepsUp(t, t2, x) && t[x].entries[1].inum != 0
    {
      assert DirShape(t, x);
    }
    SameTree(t, t2, 0);
  }

  lemma LinkKeeps(t: Table, ip: nat, dp: Option<nat>, name: string)
    requires Inv(t)
    requires Link(t, ip, dp, name).Ok? ==> dp.value < |t| && Live(t[dp.value])
    ensures !Link(t, ip, dp, name).Panic? && Inv(Link(t, ip, dp, name).t)
    ensures Link(t, ip, dp, name).Fail? ==> Link(t, ip, dp, name).t == t
  {
    var r := Link(t, ip, dp, name);
    if r.Ok? {
      assert DirShape(t, dp.value);
      NotDots(t, dp.value, name);
      LinkCore(t, ip, dp.value, name);
      LinkTree(t, ip, dp.value, name);
      assert ip > 0;
      assert CountOk(t, ip);
      assert forall j | 0 <= j < |t| && HeldOk(t, j) :: HeldOk(r.t, j);
    } else if ip < |t| && Plain(t[ip]) {
      assert HeldOk(t, ip);
      var t1 := t[ip := t[ip].(nlink := t[ip].nlink + 1)];
      assert t1[ip := t1[ip].(nlink := t1[ip].nlink - 1)] == t;
    }
  }

  lemma NewCount(kind: Kind, ip: nat, dp: nat, j: nat)
    requires j > 0
    ensures Contrib(NewInode(kind, ip, dp), j) == if kind == Dir && j == dp then 1 else 0
  {
    var es := [Entry(ip, "."), Entry(dp, "..")];
    assert es[..1] == [Entry(ip, ".")] && es[..1][..0] == [];
    assert CountIn(es[..1], j) == 0;
  }

  lemma CreateCount(t: Table, dp: nat, name: string, kind: Kind, ip: nat, j: nat)
    requires 1 <= j < |t| && CountOk(t, j) && kind != Free
    requires 0 < ip < |t| && t[ip].kind == Free && dp < |t| && Live(t[dp]) && name != "."
    ensures CountOk(Created(t, dp, name, kind, ip), j)
  {
    var t1 := t[ip := NewInode(kind, ip, dp)];
    var t2 := Created(t, dp, name, kind, ip);
    RefsUpdate(t, ip, t1[ip], j);
    NewCount(kind, ip, dp, j);
    RefsUpdate(t1, dp, t2[dp], j);
    CountAdded(t[dp].entries, Entry(ip, name), j);
  }

  lemma CreateTree(t: Table, dp: nat, name: string, kind: Kind, ip: nat, d: nat)
    requires Core(t) && kind != Free && d < |t|
    requires 0 < ip < |t| && t[ip].kind == Free && dp < |t| && Live(t[dp]) && name != "." && name != ".."
    ensures var t2 := Created(t, dp, name, kind, ip); DirShape(t2, d) && TreeOk(t2, d) && DeadOk(t2, d)
  {
    assert DirShape(t, d) && TreeOk(t, d) && DeadOk(t, d);
    assert DirShape(t, dp);
    var k := AddedAt(t, dp, Entry(ip, name));
    assert HasEntry(Created(t, dp, name, kind, ip)[dp].entries, ip);
  }

  lemma CreateEntry(t: Table, dp: nat, name: string, kind: Kind, ip: nat, x: nat, m: nat)
    requires Core(t) && kind != Free
    requires 0 < ip < |t| && t[ip].kind == Free && dp < |t| && Live(t[dp]) && name != "." && name != ".."
    requires x < |t| && 2 <= m < |Created(t, dp, name, kind, ip)[x].entries|
    ensures EntryOk(Created(t, dp, name, kind, ip), x, m)
  {
    assert DirShape(t, dp) && CountOk(t, ip);
    var k := AddedAt(t, dp, Entry(ip, name));
    if x == dp && m == k {
      forall j | 2 <= j < |t[dp].entries|
        ensures t[dp].entries[j].inum != ip
      {
        Unnamed(t, ip, dp, j);
      }
    } else if x != ip && Live(t[x]) {
      assert EntryOk(t, x, m);
      Unnamed(t, ip, x, m);
    }
  }

  // A new directory is one step further from the root than its parent.
  lemma CreateRooted(t: Table, dp: nat, name: string, kind: Kind, ip: nat)
    requires Core(t) && Tree(t) && kind != Free
    requires 0 < ip < |t| && t[ip].kind == Free && dp < |t| && Live(t[dp])
    ensures Tree(Created(t, dp, name, kind, ip))
  {
    var t2 := Created(t, dp, name, kind, ip);
    assert DirShape(t, dp);
    var k := AddedAt(t, dp, Entry(ip, name));
    forall x | 0 <= x < |t| && Live(t[x])
      ensures KeepsUp(t, t2, x) && t[x].entries[1].inum != 0
    {
      assert DirShape(t, x);
    }
    RootedKeeps(t, t2, 0, dp);
    forall d | 0 <= d < |t2|
      ensures Rooted(t2, d)
    {
      if d == ip {
        var n: nat :| Reaches(t2, dp, n);
        assert kind == Dir ==> Reaches(t2, ip, n + 1);
      } else if Live(t2[d]) {
        RootedKeeps(t, t2, 0, d);
      }
    }
  }

  // A name in a linked directory stands for an allocated inode.
  lemma FoundAllocated(t: Table, dp: nat, k: nat)
    requires Inv(t) && dp < |t| && Live(t[dp]) && k < |t[dp].entries| && t[dp].entries[k].inum != 0
    ensures var i := t[dp].entries[k].inum; i < |t| && t[i].kind != Free && Put(t, i) == t
  {
    assert DirShape(t, dp) && TreeOk(t, dp);
    if k >= 2 { assert EntryOk(t, dp, k); }
    assert HeldOk(t, t[dp].entries[k].inum);
  }

  lemma CreateNew(t: Table, dp: nat, name: string, kind: Kind, ip: nat)
    requires Inv(t) && kind != Free && dp < |t| && Live(t[dp]) && Find(t[dp].entries, name).None?
    requires 0 < ip < |t| && t[ip].kind == Free
    ensures Inv(Created(t, dp, name, kind, ip))
  {
    var t2 := Created(t, dp, name, kind, ip);
    assert DirShape(t, dp);
    NotDots(t, dp, name);
    forall j | 1 <= j < |t| ensures CountOk(t2, j) { CreateCount(t, dp, name, kind, ip, j); }
    forall d | 0 <= d < |t|
      ensures DirShape(t2, d) && TreeOk(t2, d) && DeadOk(t2, d)
    {
      CreateTree(t, dp, name, kind, ip, d);
    }
    forall x, m | 0 <= x < |t| && 2 <= m < |t2[x].entries|
      ensures EntryOk(t2, x, m)
    {
      CreateEntry(t, dp, name, kind, ip, x, m);
    }
    CreateRooted(t, dp, name, kind, ip);
    assert forall j | 0 <= j < |t| && HeldOk(t, j) :: HeldOk(t2, j);
  }

  /** In a linked directory create keeps the invariant, and panics only when there is no free inode. */
  lemma CreateKeeps(t: Table, dp: nat, name: string, kind: Kind)
    requires Inv(t) && (IsDir(t, dp) ==> Live(t[dp]))
    ensures Create(t, dp, name, kind).Panic? <==>
              IsDir(t, dp) && kind != Free && Find(t[dp].entries, name).None? && FreeInode(t).None?
    ensures !Create(t, dp, name, kind).Panic? ==> Inv(Create(t, dp, name, kind).t)
    ensures Create(t, dp, name, kind).Fail? ==> Create(t, dp, name, kind).t == t
  {
    if IsDir(t, dp) && kind != Free {
      var f := Find(t[dp].entries, name);
      if f.Some? {
        FoundAllocated(t, dp, f.value);
        OpenKeeps(t, t[dp].entries[f.value].inum);
      } else if FreeInode(t).Some? {
        CreateNew(t, dp, name, kind, FreeInode(t).value);
      }
    }
  }

  /* ---- unlink ---- */

  // What sys_unlink has established once it goes ahead.
  ghost predicate Unlinking(t: Table, dp: nat, k: nat, ip: nat) {
    && dp < |t| && Live(t[dp]) && 2 <= k < |t[dp].entries| && t[dp].entries[k].inum == ip && 0 < ip < |t|
    && t[dp].entries[k].name != "." && (t[ip].kind == Dir ==> OnlyDots(t[ip].entries))
  }

  lemma OthersNamed(t: Table, dp: nat, k: nat, d: nat)
    requires dp < |t| && k < |t[dp].entries| && t[dp].entries[k].inum != d && d > 0 && HasEntry(t[dp].entries, d)
    ensures HasEntry(t[dp].entries[k := EMPTY], d)
  {
    var es := t[dp].entries;
    var m :| 2 <= m < |es| && es[m].inum == d;
    assert es[k := EMPTY][m].inum == d;
  }

  lemma UnlinkFileCount(t: Table, dp: nat, k: nat, ip: nat, j: nat)
    requires Unlinking(t, dp, k, ip) && Plain(t[ip]) && 1 <= j < |t| && CountOk(t, j)
    ensures CountOk(Removed(t, dp, k, ip), j)
  {
    var t2 := Removed(t, dp, k, ip);
    var t1 := t[dp := t2[dp]];
    RefsUpdate(t, dp, t2[dp], j);
    CountUpdate(t[dp].entries, k, EMPTY, j);
    RefsUpdate(t1, ip, t2[ip], j);
    assert t1[ip := t2[ip]] == t2;
  }

  lemma UnlinkFile(t: Table, dp: nat, k: nat, ip: nat)
    requires Core(t) && Unlinking(t, dp, k, ip) && Plain(t[ip])
    ensures Core(Removed(t, dp, k, ip))
  {
    var t2 := Removed(t, dp, k, ip);
    forall j | 1 <= j < |t| ensures CountOk(t2, j) { assert CountOk(t, j); UnlinkFileCount(t, dp, k, ip, j); }
    forall d | 0 <= d < |t|
      ensures DirShape(t2, d) && TreeOk(t2, d) && DeadOk(t2, d)
    {
      assert DirShape(t, d) && TreeOk(t, d) && DeadOk(t, d);
      if Live(t[d]) && d != ROOTINO && Parent(t, d) == dp { OthersNamed(t, dp, k, d); }
    }
    forall x, m | 0 <= x < |t2| && 2 <= m < |t2[x].entries|
      ensures EntryOk(t2, x, m)
    {
      assert EntryOk(t, x, m);
    }
  }

  // Nothing else names a directory that sys_unlink removes: not a child's "..", and no entry.
  lemma OnlyName(t: Table, dp: nat, k: nat, ip: nat, x: nat, m: nat)
    requires Core(t) && Unlinking(t, dp, k, ip) && t[ip].kind == Dir
    requires x < |t| && Live(t[x]) && m < |t[x].entries| && Names(t[x].entries[m], ip) == 1
    ensures x == dp && m == k
  {
    assert EntryOk(t, dp, k) && DirShape(t, x) && TreeOk(t, x);
    if m >= 2 { assert EntryOk(t, x, m); }
  }

  // The directory's only link is the one being removed, and its ".." names dp.
  lemma LastLink(t: Table, dp: nat, k: nat, ip: nat)
    requires Core(t) && Unlinking(t, dp, k, ip) && t[ip].kind == Dir
    ensures t[ip].nlink == 1 && ip != dp && ip != ROOTINO && Live(t[ip]) && |t[ip].entries| >= 2 && Parent(t, ip) == dp
  {
    assert EntryOk(t, dp, k) && TreeOk(t, ip) && CountOk(t, ip) && DirShape(t, ip);
    var ipp := t[dp].(entries := t[dp].entries[k := EMPTY]);
    var t1 := t[dp := ipp];
    RefsUpdate(t, dp, ipp, ip);
    CountUpdate(t[dp].entries, k, EMPTY, ip);
    forall x | 0 <= x < |t1|
      ensures Contrib(t1[x], ip) == 0
    {
      CountZero(t1[x].entries, ip);
      if Live(t1[x]) {
        forall m | 0 <= m < |t1[x].entries|
          ensures Names(t1[x].entries[m], ip) == 0
        {
          if Names(t1[x].entries[m], ip) == 1 { OnlyName(t, dp, k, ip, x, m); }
        }
      }
    }
    RefsZero(t1, ip);
  }

  // A removed directory counted only for its parent.
  lemma DotsCount(t: Table, ip: nat, j: nat)
    requires ip < |t| && t[ip].kind == Dir && DirShape(t, ip) && OnlyDots(t[ip].entries) && j > 0
    ensures CountIn(t[ip].entries, j) == if Parent(t, ip) == j then 1 else 0
  {
    var es := t[ip].entries;
    var one := es[1 := EMPTY];
    CountUpdate(es, 1, EMPTY, j);
    CountZero(one, j);
  }

  // dp is still named by its own parent, or by itself if it is the root.
  lemma ParentStays(t: Table, dp: nat, k: nat, ip: nat)
    requires Core(t) && Unlinking(t, dp, k, ip) && t[ip].kind == Dir
    ensures t[dp].nlink >= 2
  {
    LastLink(t, dp, k, ip);
    assert DirShape(t, dp) && TreeOk(t, dp) && CountOk(t, dp) && DirShape(t, ip);
    var gone := t[ip].(nlink := 0);
    var t1 := t[ip := gone];
    RefsUpdate(t, ip, gone, dp);
    DotsCount(t, ip, dp);
    var up := Parent(t, dp);
    if dp == ROOTINO {
      NamedCounts(t1, dp, 1, dp);
    } else {
      var m :| 2 <= m < |t[up].entries| && t[up].entries[m].inum == dp;
      assert DirShape(t, up);
      NamedCounts(t1, up, m, dp);
    }
  }

  lemma UnlinkDirCount(t: Table, dp: nat, k: nat, ip: nat, j: nat)
    requires Core(t) && Unlinking(t, dp, k, ip) && t[ip].kind == Dir && 1 <= j < |t|
    ensures CountOk(Removed(t, dp, k, ip), j)
  {
    LastLink(t, dp, k, ip);
    ParentStays(t, dp, k, ip);
    assert CountOk(t, j) && DirShape(t, ip);
    var t2 := Removed(t, dp, k, ip);
    var t1 := t[dp := t2[dp]];
    RefsUpdate(t, dp, t2[dp], j);
    CountUpdate(t[dp].entries, k, EMPTY, j);
    RefsUpdate(t1, ip, t2[ip], j);
    DotsCount(t, ip, j);
    assert t1[ip := t2[ip]] == t2;
  }

  lemma UnlinkDirTree(t: Table, dp: nat, k: nat, ip: nat, d: nat)
    requires Core(t) && Unlinking(t, dp, k, ip) && t[ip].kind == Dir && d < |t|
    ensures var t2 := Removed(t, dp, k, ip); DirShape(t2, d) && TreeOk(t2, d) && DeadOk(t2, d)
  {
    LastLink(t, dp, k, ip);
    ParentStays(t, dp, k, ip);
    assert DirShape(t, d) && TreeOk(t, d) && DeadOk(t, d);
    if Live(t[d]) && d != ROOTINO && Parent(t, d) == dp && d != ip { OthersNamed(t, dp, k, d); }
  }

  lemma UnlinkDirEntry(t: Table, dp: nat, k: nat, ip: nat, x: nat, m: nat)
    requires Core(t) && Unlinking(t, dp, k, ip) && t[ip].kind == Dir
    requires x < |t| && 2 <= m < |t[x].entries|
    ensures EntryOk(Removed(t, dp, k, ip), x, m)
  {
    LastLink(t, dp, k, ip);
    ParentStays(t, dp, k, ip);
    assert EntryOk(t, x, m) && DirShape(t, x);
    if Live(t[x]) && t[x].entries[m].inum == ip { OnlyName(t, dp, k, ip, x, m); }
  }

  lemma UnlinkCore(t: Table, dp: nat, k: nat, ip: nat)
    requires Core(t) && Unlinking(t, dp, k, ip)
    ensures Core(Removed(t, dp, k, ip))
  {
    assert EntryOk(t, dp, k);
    if Plain(t[ip]) {
      UnlinkFile(t, dp, k, ip);
    } else {
      var t2 := Removed(t, dp, k, ip);
      LastLink(t, dp, k, ip);
      ParentStays(t, dp, k, ip);
      forall j | 1 <= j < |t| ensures CountOk(t2, j) { UnlinkDirCount(t, dp, k, ip, j); }
      forall d | 0 <= d < |t|
        ensures DirShape(t2, d) && TreeOk(t2, d) && DeadOk(t2, d)
      {
        UnlinkDirTree(t, dp, k, ip, d);
      }
      forall x, m | 0 <= x < |t| && 2 <= m < |t2[x].entries|
        ensures EntryOk(t2, x, m)
      {
        UnlinkDirEntry(t, dp, k, ip, x, m);
      }
    }
  }

  // The directory that goes has no child.
  lemma UnlinkTree(t: Table, dp: nat, k: nat, ip: nat)
    requires Core(t) && Tree(t) && Unlinking(t, dp, k, ip) && t[ip].kind != Free
    ensures Tree(Removed(t, dp, k, ip))
  {
    var t2 := Removed(t, dp, k, ip);
    assert EntryOk(t, dp, k);
    if t[ip].kind == Dir {
      LastLink(t, dp, k, ip);
      ParentStays(t, dp, k, ip);
    }
    var gone := if t[ip].kind == Dir then ip else 0;
    forall x | 0 <= x < |t| && x != gone && Live(t[x])
      ensures KeepsUp(t, t2, x) && t[x].entries[1].inum != gone
    {
      assert DirShape(t, x);
      if t[ip].kind == Dir && t[x].entries[1].inum == ip { OnlyName(t, dp, k, ip, x, 1); }
    }
    SameTree(t, t2, gone);
  }

  lemma UnlinkKeeps(t: Table, dp: nat, name: string)
    requires Inv(t)
    ensures !Unlink(t, dp, name).Panic? && Inv(Unlink(t, dp, name).t)
    ensures Unlink(t, dp, name).Fail? ==> Unlink(t, dp, name).t == t
  {
    if IsDir(t, dp) && name != "." && name != ".." {
      assert DirShape(t, dp) && DeadOk(t, dp);
      var f := Find(t[dp].entries, name);
      if f.Some? {
        var k := f.value;
        var ip := t[dp].entries[k].inum;
        assert EntryOk(t, dp, k);
        NamedCounts(t, dp, k, ip);
        assert CountOk(t, ip);
        if t[ip].kind == Dir ==> OnlyDots(t[ip].entries) {
          UnlinkCore(t, dp, k, ip);
          UnlinkTree(t, dp, k, ip);
          if t[ip].kind == Dir { ParentStays(t, dp, k, ip); }
          assert forall j | 0 <= j < |t| && j != ip && HeldOk(t, j) :: HeldOk(Removed(t, dp, k, ip), j);
          PutKeeps(Removed(t, dp, k, ip), ip);
        }
      }
    }
  }

  /* ---- the exact condition: the parent directory is still linked ---- */

  // Every link count is the number of entries that name the inode.
  ghost predicate CountsOk(t: Table) {
    forall j | 1 <= j < |t| :: CountOk(t, j)
  }

  // Entering a file into a removed directory gives it a link that no live entry accounts for.
  lemma LinkDead(t: Table, ip: nat, dp: nat, name: string)
    requires Inv(t) && Link(t, ip, Some(dp), name).Ok? && !Live(t[dp])
    ensures !CountsOk(Linked(t, ip, dp, name))
  {
    var t1 := t[ip := t[ip].(nlink := t[ip].nlink + 1)];
    var t2 := Linked(t, ip, dp, name);
    assert ip > 0;
    assert CountOk(t, ip);
    RefsUpdate(t, ip, t1[ip], ip);
    RefsUpdate(t1, dp, t2[dp], ip);
    assert !CountOk(t2, ip);
  }

  // Making a directory in a removed one makes that look linked, so that its ".." counts again for an inode whose
  // link count was lowered when it was removed.
  lemma DeadDirCount(t: Table, dp: nat, name: string, ip: nat)
    requires Inv(t) && IsDir(t, dp) && !Live(t[dp]) && 0 < ip < |t| && t[ip].kind == Free
    requires Find(t[dp].entries, name).None? && DirShape(t, dp)
    ensures Parent(t, dp) < |t| && !CountOk(Created(t, dp, name, Dir, ip), Parent(t, dp))
  {
    var up := Parent(t, dp);
    var t1 := t[ip := NewInode(Dir, ip, dp)];
    var t2 := Created(t, dp, name, Dir, ip);
    assert CountOk(t, up) && CountOk(t, ip) && CountOk(t, dp) && DeadOk(t, dp);
    NotDots(t, dp, name);
    RefsUpdate(t, ip, t1[ip], up);
    NewCount(Dir, ip, dp, up);
    RefsUpdate(t1, dp, t2[dp], up);
    CountAdded(t[dp].entries, Entry(ip, name), up);
    DotsCount(t, dp, up);
  }

  lemma CreateDead(t: Table, dp: nat, name: string, kind: Kind, ip: nat)
    requires Inv(t) && IsDir(t, dp) && !Live(t[dp]) && 0 < ip < |t| && t[ip].kind == Free && kind != Free
    requires Find(t[dp].entries, name).None?
    ensures !CountsOk(Created(t, dp, name, kind, ip))
  {
    var t1 := t[ip := NewInode(kind, ip, dp)];
    var t2 := Created(t, dp, name, kind, ip);
    assert CountOk(t, ip) && DirShape(t, dp);
    if kind != Dir {
      RefsUpdate(t, ip, t1[ip], ip);
      RefsUpdate(t1, dp, t2[dp], ip);
      assert !CountOk(t2, ip);
    } else {
      DeadDirCount(t, dp, name, ip);
    }
  }

  /** create keeps the link counts exact if and only if the parent directory is still linked, or the name
      was there before. */
  lemma CreateKeepsIff(t: Table, dp: nat, name: string, kind: Kind)
    requires Inv(t) && Create(t, dp, name, kind).Ok?
    ensures CountsOk(Create(t, dp, name, kind).t) <==> t[dp].nlink > 0 || Find(t[dp].entries, name).Some?
    ensures Inv(Create(t, dp, name, kind).t) <==> CountsOk(Create(t, dp, name, kind).t)
  {
    var f := Find(t[dp].entries, name);
    if f.Some? {
      OpenKeeps(t, t[dp].entries[f.value].inum);
    } else if Live(t[dp]) {
      CreateKeeps(t, dp, name, kind);
    } else {
      CreateDead(t, dp, name, kind, FreeInode(t).value);
    }
  }

  /** The same for link. */
  lemma LinkKeepsIff(t: Table, ip: nat, dp: nat, name: string)
    requires Inv(t) && Link(t, ip, Some(dp), name).Ok?
    ensures CountsOk(Link(t, ip, Some(dp), name).t) <==> t[dp].nlink > 0
    ensures Inv(Link(t, ip, Some(dp), name).t) <==> CountsOk(Link(t, ip, Some(dp), name).t)
  {
    if Live(t[dp]) {
      LinkKeeps(t, ip, Some(dp), name);
    } else {
      LinkDead(t, ip, dp, name);
    }
  }

  /* ---- runs ---- */

  datatype Action =
    | DoCreate(dp: nat, name: string, kind: Kind)
    | DoLink(ip: nat, parent: Option<nat>, name: string)
    | DoUnlink(dp: nat, name: string)
    | DoOpen(i: nat)
    | DoClose(i: nat)

  function Next(t: Table, a: Action): Outcome {
    match a
    case DoCreate(dp, name, kind) => Create(t, dp, name, kind)
    case DoLink(ip, parent, name) => Link(t, ip, parent, name)
    case DoUnlink(dp, name) => Unlink(t, dp, name)
    case DoOpen(i) => Open(t, i)
    case DoClose(i) => Close(t, i)
  }

  // A new name goes into a directory that is still linked.
  predicate IntoLinked(t: Table, a: Action) {
    match a
    case DoCreate(dp, _, _) => IsDir(t, dp) ==> Live(t[dp])
    case DoLink(_, parent, _) => parent.Some? && IsDir(t, parent.value) ==> Live(t[parent.value])
    case _ => true
  }

  // What mkfs writes: only the root directory, which is its own parent.
  function Mkfs(n: nat): Table
    requires n > ROOTINO
  {
    seq(n, i => if i == ROOTINO then Inode(Dir, 1, 0, [Entry(ROOTINO, "."), Entry(ROOTINO, "..")])
        else Inode(Free, 0, 0, []))
  }

  // The table after the actions; None once a new name went into an unlinked directory, or after a panic.
  function Exec(n: nat, acts: seq<Action>): Option<Table>
    requires n > ROOTINO
  {
    if acts == [] then Some(Mkfs(n))
    else
      var k := |acts| - 1;
      match Exec(n, acts[..k])
      case None => None
      case Some(t) => if IntoLinked(t, acts[k]) && !Next(t, acts[k]).Panic? then Some(Next(t, acts[k]).t) else None
  }

  lemma ExecSnoc(n: nat, acts: seq<Action>, a: Action)
    requires n > ROOTINO && Exec(n, acts).Some?
    ensures var t := Exec(n, acts).value;
            Exec(n, acts + [a]) == if IntoLinked(t, a) && !Next(t, a).Panic? then Some(Next(t, a).t) else None
  {
    assert (acts + [a])[..|acts|] == acts;
  }

  lemma MkfsInv(n: nat)
    requires n > ROOTINO
    ensures Inv(Mkfs(n))
  {
    var t := Mkfs(n);
    forall j | 1 <= j < n
      ensures CountOk(t, j)
    {
      var none := seq(n, i => Inode(Free, 0, 0, []));
      RefsZero(none, j);
      RefsUpdate(none, ROOTINO, t[ROOTINO], j);
      assert none[ROOTINO := t[ROOTINO]] == t;
      DotsCount(t, ROOTINO, j);
    }
    assert Reaches(t, ROOTINO, 0);
  }

  lemma NextKeeps(t: Table, a: Action)
    requires Inv(t) && IntoLinked(t, a) && !Next(t, a).Panic?
    ensures Inv(Next(t, a).t)
    ensures Next(t, a).Fail? ==> Next(t, a).t == t
  {
    match a
    case DoCreate(dp, name, kind) => CreateKeeps(t, dp, name, kind);
    case DoLink(ip, parent, name) => LinkKeeps(t, ip, parent, name);
    case DoUnlink(dp, name) => UnlinkKeeps(t, dp, name);
    case DoOpen(i) => if Next(t, a).Ok? { OpenKeeps(t, i); }
    case DoClose(i) => if Next(t, a).Ok? { CloseKeeps(t, i); }
  }

  /** In every run from mkfs, link counts are exact, directories form a tree with names only in linked parents,
      an inode that is free has no name, and one without a name is kept only while it is in use. */
  lemma {:induction false} EveryRun(n: nat, acts: seq<Action>)
    requires n > ROOTINO && Exec(n, acts).Some?
    ensures Inv(Exec(n, acts).value)
  {
    if acts == [] {
      MkfsInv(n);
    } else {
      var k := |acts| - 1;
      EveryRun(n, acts[..k]);
      NextKeeps(Exec(n, acts[..k]).value, acts[k]);
    }
  }

  /** In every run, no linked directory but the root is above itself. */
  lemma NoCycle(n: nat, acts: seq<Action>, d: nat, k: nat)
    requires n > ROOTINO && Exec(n, acts).Some?
    requires var t := Exec(n, acts).value; d < |t| && Live(t[d]) && k > 0 && Above(t, d, k, d)
    ensures d == ROOTINO
  {
    var t := Exec(n, acts).value;
    EveryRun(n, acts);
    assert Rooted(t, d);
    var m: nat :| Reaches(t, d, m);
    AboveDepth(t, d, m, k, d);
    DepthUnique(t, d, m, if k <= m then m - k else 0);
  }

  /** The panics in unlink and link cannot happen: a run stops only for want of a free inode, or by naming
      something in a removed directory. */
  lemma RunStops(n: nat, acts: seq<Action>, a: Action)
    requires n > ROOTINO && Exec(n, acts).Some? && Exec(n, acts + [a]).None?
    ensures var t := Exec(n, acts).value; (a.DoCreate? && FreeInode(t).None?) || !IntoLinked(t, a)
  {
    EveryRun(n, acts);
    ExecSnoc(n, acts, a);
    var t := Exec(n, acts).value;
    match a {
      case DoCreate(dp, name, kind) => if IntoLinked(t, a) { CreateKeeps(t, dp, name, kind); }
      case DoLink(ip, parent, name) => if IntoLinked(t, a) { LinkKeeps(t, ip, parent, name); }
      case DoUnlink(dp, name) => UnlinkKeeps(t, dp, name);
      case _ =>
    }
  }

  /** An inode in use is freed only by the last close, and only if it has no links left. */
  lemma OpenSurvives(t: Table, a: Action, i: nat)
    requires Inv(t) && i < |t| && t[i].ref > 0 && !Next(t, a).Panic?
    ensures |Next(t, a).t| == |t|
    ensures Next(t, a).t[i].kind == if a == DoClose(i) && t[i].ref == 1 && t[i].nlink == 0 then Free else t[i].kind
    ensures Next(t, a).t[i].ref >= if a == DoClose(i) then t[i].ref - 1 else t[i].ref
  {
    assert HeldOk(t, i);
  }

  lemma SameLookup(es: seq<Entry>, name: string, r: Option<nat>)
    requires IsLookup(es, name, r)
    ensures r == Find(es, name)
  {
  }

  // Making a directory and removing it again leaves it unlinked but in use.
  lemma MakeRemove(t: Table, dp: nat, name: string, ip: nat)
    requires Inv(t) && dp < |t| && Live(t[dp]) && Find(t[dp].entries, name).None?
    requires 0 < ip < |t| && t[ip].kind == Free
    ensures var r := Unlink(Created(t, dp, name, Dir, ip), dp, name);
            && r.Ok? && Inv(r.t) && |r.t| == |t| && r.t[ip] == NewInode(Dir, ip, dp).(nlink := 0)
            && forall j | 0 <= j < |t| && j != ip && j != dp :: r.t[j] == t[j]
  {
    var t1 := Created(t, dp, name, Dir, ip);
    CreateNew(t, dp, name, Dir, ip);
    assert DirShape(t, dp);
    NotDots(t, dp, name);
    var k := AddedAt(t, dp, Entry(ip, name));
    SameLookup(t1[dp].entries, name, Some(k));
    UnlinkKeeps(t1, dp, name);
  }

  /** From every reachable table: whoever makes a directory, removes it while it is still a current directory,
      and creates a file in it leaves link counts that are wrong. */
  lemma DeadParent(t: Table, dp: nat, name: string, ip: nat, f: string)
    requires Inv(t) && dp < |t| && Live(t[dp]) && Find(t[dp].entries, name).None?
    requires FreeInode(t) == Some(ip) && f != "." && f != ".."
    requires exists j | 0 < j < |t| && j != ip :: t[j].kind == Free
    ensures var t1 := Create(t, dp, name, Dir).t;
            var t2 := Unlink(t1, dp, name).t;
            Create(t2, ip, f, File).Ok? && !CountsOk(Create(t2, ip, f, File).t)
  {
    MakeRemove(t, dp, name, ip);
    var t2 := Unlink(Created(t, dp, name, Dir, ip), dp, name).t;
    var j :| 0 < j < |t| && j != ip && t[j].kind == Free;
    SameLookup(t2[ip].entries, f, None);
    assert t2[j].kind == Free;
    CreateKeepsIff(t2, ip, f, File);
  }

  /** Such a run from mkfs, on every disk with room for two more inodes. */
  lemma DeadParentRun(n: nat, name: string, f: string)
    requires n > 3 && name != "." && name != ".." && f != "." && f != ".."
    ensures var acts := [DoCreate(ROOTINO, name, Dir), DoUnlink(ROOTINO, name)];
            && Exec(n, acts).Some?
            && Create(Exec(n, acts).value, 2, f, File).Ok?
            && !CountsOk(Create(Exec(n, acts).value, 2, f, File).t)
  {
    var a0, a1 := DoCreate(ROOTINO, name, Dir), DoUnlink(ROOTINO, name);
    var t := Mkfs(n);
    MkfsInv(n);
    assert t[1].kind == Dir && t[2].kind == Free && t[3].kind == Free;
    assert FreeInode(t) == Some(2);
    SameLookup(t[1].entries, name, None);
    MakeRemove(t, 1, name, 2);
    DeadParent(t, 1, name, 2, f);
    ExecSnoc(n, [], a0);
    ExecSnoc(n, [a0], a1);
    assert [] + [a0] == [a0] && [a0] + [a1] == [a0, a1];
  }

  /* ---- when the calls succeed, and what they change ---- */

  lemma FoundMeans(es: seq<Entry>, name: string)
    ensures match Find(es, name) case Some(k) => FirstNamed(es, name, k) case None => NotNamed(es, name)
    ensures forall k: nat | FirstNamed(es, name, k) :: Find(es, name) == Some(k)
  {
    forall k: nat | FirstNamed(es, name, k)
      ensures Find(es, name) == Some(k)
    {
      SameLookup(es, name, Some(k));
    }
  }

  lemma AddedMeans(es: seq<Entry>, e: Entry)
    ensures Entered(es, Added(es, e), e, SlotFor(es))
  {
  }

  // Entry k of dp is the first with the name, which is no dot name, and what it names can go.
  ghost predicate Removable(t: Table, dp: nat, name: string, k: nat) {
    && dp < |t| && t[dp].kind == Dir && name != "." && name != ".." && FirstNamed(t[dp].entries, name, k)
    && var ip := t[dp].entries[k].inum;
    && ip < |t| && t[ip].nlink >= 1
    && (t[ip].kind == Dir ==> forall m | 2 <= m < |t[ip].entries| :: t[ip].entries[m].inum == 0)
  }

  // Entry k of dp is empty, and the inode it named has a link fewer or is free; nothing else has changed but the
  // link count of dp, when that inode was a directory.
  ghost predicate RemovedAs(t: Table, t': Table, dp: nat, k: nat)
    requires dp < |t| && k < |t[dp].entries| && t[dp].entries[k].inum < |t|
  {
    var ip := t[dp].entries[k].inum;
    && |t'| == |t| && (forall i | 0 <= i < |t| && i != dp && i != ip :: t'[i] == t[i])
    && (ip != dp ==> t'[ip] == if t[ip].kind != Free && t[ip].nlink == 1 && t[ip].ref == 0 then Inode(Free, 0, 0, [])
            else t[ip].(nlink := t[ip].nlink - 1))
    && (ip != dp ==> t'[dp].kind == t[dp].kind && t'[dp].ref == t[dp].ref)
    && (ip != dp ==> t'[dp].nlink == t[dp].nlink - if t[ip].kind == Dir then 1 else 0)
    && (ip != dp ==> |t'[dp].entries| == |t[dp].entries| && t'[dp].entries[k].inum == 0)
    && (ip != dp ==> forall j | 0 <= j < |t[dp].entries| && j != k :: t'[dp].entries[j] == t[dp].entries[j])
  }

  lemma UnlinkMeans(t: Table, dp: nat, name: string) returns (k: nat)
    ensures Unlink(t, dp, name).Ok? ==> Removable(t, dp, name, k) && RemovedAs(t, Unlink(t, dp, name).t, dp, k)
    ensures !Unlink(t, dp, name).Ok? ==> forall j: nat :: !Removable(t, dp, name, j)
    ensures Unlink(t, dp, name).Fail? ==> Unlink(t, dp, name).t == t
  {
    k := 0;
    if IsDir(t, dp) {
      FoundMeans(t[dp].entries, name);
      var f := Find(t[dp].entries, name);
      k := if f.Some? then f.value else 0;
    }
  }

  /** Where the invariant holds, unlink never panics, and succeeds if and only if dp is a directory, the name is
      neither dot name, an entry has it, and the inode that the first such entry names is no directory or holds only
      its dots.  That inode is never dp itself. */
  lemma UnlinkIff(t: Table, dp: nat, name: string)
    requires Inv(t)
    ensures !Unlink(t, dp, name).Panic?
    ensures Unlink(t, dp, name).Ok? <==>
            && dp < |t| && t[dp].kind == Dir && name != "." && name != ".."
            && exists k: nat :: FirstNamed(t[dp].entries, name, k)
                 && var ip := t[dp].entries[k].inum;
                 ip < |t| && (t[ip].kind == Dir ==> forall m | 2 <= m < |t[ip].entries| :: t[ip].entries[m].inum == 0)
    ensures forall k: nat | Removable(t, dp, name, k) :: t[dp].entries[k].inum != dp
  {
    UnlinkKeeps(t, dp, name);
    if IsDir(t, dp) && name != "." && name != ".." {
      FoundMeans(t[dp].entries, name);
      var f := Find(t[dp].entries, name);
      assert DirShape(t, dp) && DeadOk(t, dp);
      if f.Some? {
        assert EntryOk(t, dp, f.value) && TreeOk(t, dp);
      }
    }
  }

  // link can enter the name.
  ghost predicate Linkable(t: Table, ip: nat, parent: Option<nat>, name: string) {
    && ip < |t| && (t[ip].kind == File || t[ip].kind == Dev)
    && parent.Some? && parent.value < |t| && t[parent.value].kind == Dir && NotNamed(t[parent.value].entries, name)
  }

  // ip has a link more and dp an entry for it in place k; nothing else has changed.
  ghost predicate LinkedAs(t: Table, t': Table, ip: nat, dp: nat, name: string, k: nat)
    requires ip < |t| && dp < |t|
  {
    && |t'| == |t| && t'[ip] == t[ip].(nlink := t[ip].nlink + 1)
    && t'[dp] == t[dp].(entries := t'[dp].entries) && Entered(t[dp].entries, t'[dp].entries, Entry(ip, name), k)
    && forall i | 0 <= i < |t| && i != ip && i != dp :: t'[i] == t[i]
  }

  /** link succeeds if and only if ip is no directory and the parent is one without that name.  A failed link leaves
      the table as it was, unless ip was about to be freed anyway. */
  lemma LinkMeans(t: Table, ip: nat, parent: Option<nat>, name: string) returns (k: nat)
    ensures !Link(t, ip, parent, name).Panic?
    ensures Link(t, ip, parent, name).Ok? <==> Linkable(t, ip, parent, name)
    ensures Link(t, ip, parent, name).Ok? ==> LinkedAs(t, Link(t, ip, parent, name).t, ip, parent.value, name, k)
    ensures Link(t, ip, parent, name).Fail? && !(ip < |t| && t[ip].nlink == 0 && t[ip].ref == 0) ==>
            Link(t, ip, parent, name).t == t
  {
    k := 0;
    if ip < |t| && Plain(t[ip]) {
      var t1 := t[ip := t[ip].(nlink := t[ip].nlink + 1)];
      assert t1[ip := t1[ip].(nlink := t1[ip].nlink - 1)] == t;
      if parent.Some? && IsDir(t, parent.value) {
        FoundMeans(t[parent.value].entries, name);
        AddedMeans(t[parent.value].entries, Entry(ip, name));
        k := SlotFor(t[parent.value].entries);
      }
    }
  }

  // create finds a file to open, in entry k of dp.
  ghost predicate Openable(t: Table, dp: nat, name: string, kind: Kind, k: nat) {
    && dp < |t| && t[dp].kind == Dir && FirstNamed(t[dp].entries, name, k)
    && t[dp].entries[k].inum < |t| && kind == File && t[t[dp].entries[k].inum].kind == File
  }

  // create makes inode ip.
  ghost predicate Makeable(t: Table, dp: nat, name: string, kind: Kind, ip: nat) {
    && dp < |t| && t[dp].kind == Dir && kind != Free && NotNamed(t[dp].entries, name)
    && 1 <= ip < |t| && t[ip].kind == Free && forall i | 1 <= i < ip :: t[i].kind != Free
  }

  // ip is new, with one link, one reference and, for a directory, its dots; dp has an entry for it in place k and,
  // for a directory, a link more; nothing else has changed.
  ghost predicate MadeAs(t: Table, t': Table, dp: nat, name: string, kind: Kind, ip: nat, k: nat)
    requires dp < |t| && ip < |t|
  {
    && |t'| == |t| && t'[ip].kind == kind && t'[ip].nlink == 1 && t'[ip].ref == 1
    && t'[ip].entries == (if kind == Dir then [Entry(ip, "."), Entry(dp, "..")] else [])
    && t'[dp] == t[dp].(entries := t'[dp].entries, nlink := t[dp].nlink + if kind == Dir then 1 else 0)
    && Entered(t[dp].entries, t'[dp].entries, Entry(ip, name), k)
    && forall i | 0 <= i < |t| && i != ip && i != dp :: t'[i] == t[i]
  }

  lemma CreateMeans(t: Table, dp: nat, name: string, kind: Kind) returns (k: nat, ip: nat)
    ensures Create(t, dp, name, kind).Ok? <==> Openable(t, dp, name, kind, k) || Makeable(t, dp, name, kind, ip)
    ensures forall j: nat | Openable(t, dp, name, kind, j) :: j == k
    ensures forall i: nat | Makeable(t, dp, name, kind, i) :: i == ip
    ensures Openable(t, dp, name, kind, k) ==>
            ip == t[dp].entries[k].inum && Create(t, dp, name, kind).t == t[ip := t[ip].(ref := t[ip].ref + 1)]
    ensures Makeable(t, dp, name, kind, ip) ==> MadeAs(t, Create(t, dp, name, kind).t, dp, name, kind, ip, k)
  {
    k, ip := 0, 0;
    if IsDir(t, dp) {
      FoundMeans(t[dp].entries, name);
      var f, i := Find(t[dp].entries, name), FreeInode(t);
      if f.Some? {
        k, ip := f.value, t[dp].entries[f.value].inum;
      } else if i.Some? {
        AddedMeans(t[dp].entries, Entry(i.value, name));
        k, ip := SlotFor(t[dp].entries), i.value;
      }
    }
  }

  /** create panics if and only if the name is new and no inode is free, or the first entry with the name names none
      that is allocated. */
  lemma CreatePanics(t: Table, dp: nat, name: string, kind: Kind)
    ensures Create(t, dp, name, kind).Panic? <==>
            && dp < |t| && t[dp].kind == Dir && kind != Free
            && ((NotNamed(t[dp].entries, name) && forall i | 1 <= i < |t| :: t[i].kind != Free)
                || exists k: nat :: FirstNamed(t[dp].entries, name, k)
                     && var ip := t[dp].entries[k].inum; ip >= |t| || t[ip].kind == Free)
  {
    if IsDir(t, dp) { FoundMeans(t[dp].entries, name); }
  }

  /** Opening an inode that is in use, or has links, and closing it again restores the table. */
  lemma OpenThenClose(t: Table, i: nat)
    requires i < |t| && t[i].kind != Free && (t[i].nlink > 0 || t[i].ref > 0)
    ensures Open(t, i).Ok? && Open(t, i).t == t[i := t[i].(ref := t[i].ref + 1)]
    ensures Close(Open(t, i).t, i) == Ok(t)
  {
    assert t[i := t[i].(ref := t[i].ref + 1)][i := t[i]] == t;
  }

  /* ---- the code ---- */

  datatype Status = Done | Refused | Panicked

  ghost predicate Agrees(o: Outcome, s: Status, t: Table) {
    match o
    case Ok(u) => s == Done && t == u
    case Fail(u) => s == Refused && t == u
    case Panic => s == Panicked
  }

  class InodeTable {
    var inodes: Table

    constructor (n: nat)
      requires n > ROOTINO
      ensures Inv(inodes) && inodes == Mkfs(n)
    {
      inodes := Mkfs(n);
      MkfsInv(n);
    }

    method Ialloc() returns (r: Option<nat>)
      ensures r == FreeInode(inodes)
      ensures r.Some? ==> 1 <= r.value < |inodes| && inodes[r.value].kind == Free
      ensures r.Some? ==> forall i | 1 <= i < r.value :: inodes[i].kind != Free
      ensures r.None? ==> forall i | 1 <= i < |inodes| :: inodes[i].kind != Free
    {
      var inum := 1;
      while inum < |inodes|
        invariant 1 <= inum && forall i | 1 <= i < inum && i < |inodes| :: inodes[i].kind != Free
      {
        if inodes[inum].kind == Free { return Some(inum); }
        inum := inum + 1;
      }
      return None;
    }

    method Iput(i: nat)
      requires i < |inodes|
      modifies this
      ensures inodes == Put(old(inodes), i)
    {
      if inodes[i].ref == 0 && inodes[i].nlink == 0 && inodes[i].kind != Free {
        inodes := inodes[i := Inode(Free, 0, 0, [])];
      }
    }

    /** create: entry k of dp and inode ip are those it opened or made. */
    method Make(dp: nat, name: string, kind: Kind) returns (s: Status, ghost k: nat, ghost ip: nat)
      modifies this
      ensures Agrees(Create(old(inodes), dp, name, kind), s, inodes)
      ensures s == Done <==> Openable(old(inodes), dp, name, kind, k) || Makeable(old(inodes), dp, name, kind, ip)
      ensures forall j: nat | Openable(old(inodes), dp, name, kind, j) :: j == k
      ensures forall i: nat | Makeable(old(inodes), dp, name, kind, i) :: i == ip
      ensures Openable(old(inodes), dp, name, kind, k) ==> ip == old(inodes)[dp].entries[k].inum
      ensures Openable(old(inodes), dp, name, kind, k) ==>
        inodes == old(inodes)[ip := old(inodes)[ip].(ref := old(inodes)[ip].ref + 1)]
      ensures Makeable(old(inodes), dp, name, kind, ip) ==> MadeAs(old(inodes), inodes, dp, name, kind, ip, k)
      ensures s == Refused && Inv(old(inodes)) && (dp < |old(inodes)| ==> Live(old(inodes)[dp])) ==>
        inodes == old(inodes)
    {
      k, ip := CreateMeans(inodes, dp, name, kind);
      if Inv(inodes) && (dp < |inodes| ==> Live(inodes[dp])) { CreateKeeps(inodes, dp, name, kind); }
      if dp >= |inodes| || inodes[dp].kind != Dir || kind == Free { s := Refused; return; }
      var present := Lookup(inodes[dp].entries, name);
      SameLookup(inodes[dp].entries, name, present);
      if present.Some? {
        var i := inodes[dp].entries[present.value].inum;
        if i >= |inodes| || inodes[i].kind == Free { s := Panicked; return; }
        if kind == File && inodes[i].kind == File {
          inodes := inodes[i := inodes[i].(ref := inodes[i].ref + 1)];
          s := Done; return;
        }
        Iput(i);
        s := Refused; return;
      }
      var found := Ialloc();
      if found.None? { s := Panicked; return; }
      MakeNew(dp, name, kind, found.value);
      s := Done; return;
    }

    // sysfile.c:258-282: the new inode, its "." and "..", and its entry in dp.
    method MakeNew(dp: nat, name: string, kind: Kind, ip: nat)
      requires dp < |inodes| && ip < |inodes| && ip != dp && Find(inodes[dp].entries, name).None?
      modifies this
      ensures inodes == Created(old(inodes), dp, name, kind, ip)
    {
      var dots := [];
      if kind == Dir {
        inodes := inodes[dp := inodes[dp].(nlink := inodes[dp].nlink + 1)];
        dots := [Entry(ip, "."), Entry(dp, "..")];
      }
      inodes := inodes[ip := Inode(kind, 1, 1, dots)];
      var ok, es := DirLink(inodes[dp].entries, Entry(ip, name));
      inodes := inodes[dp := inodes[dp].(entries := es)];
    }

    /** link: the new entry is number k. */
    method SysLink(ip: nat, parent: Option<nat>, name: string) returns (s: Status, ghost k: nat)
      modifies this
      ensures Agrees(Link(old(inodes), ip, parent, name), s, inodes)
      ensures s != Panicked && (s == Done <==> Linkable(old(inodes), ip, parent, name))
      ensures s == Done ==> LinkedAs(old(inodes), inodes, ip, parent.value, name, k)
      ensures s == Refused && !(ip < |old(inodes)| && old(inodes)[ip].nlink == 0 && old(inodes)[ip].ref == 0) ==>
        inodes == old(inodes)
    {
      k := LinkMeans(inodes, ip, parent, name);
      if ip >= |inodes| || (inodes[ip].kind != File && inodes[ip].kind != Dev) { s := Refused; return; }
      inodes := inodes[ip := inodes[ip].(nlink := inodes[ip].nlink + 1)];
      if parent.Some? && parent.value < |inodes| && inodes[parent.value].kind == Dir {
        var dp := parent.value;
        var ok, es := DirLink(inodes[dp].entries, Entry(ip, name));
        if ok {
          inodes := inodes[dp := inodes[dp].(entries := es)];
          s := Done; return;
        }
      }
      inodes := inodes[ip := inodes[ip].(nlink := inodes[ip].nlink - 1)];
      Iput(ip);
      s := Refused; return;
    }

    /** unlink: entry k of dp is the one removed.  Where the invariant holds, exactly when it succeeds is
        `UnlinkIff`. */
    method SysUnlink(dp: nat, name: string) returns (s: Status, ghost k: nat)
      modifies this
      ensures Agrees(Unlink(old(inodes), dp, name), s, inodes)
      ensures s == Done ==> Removable(old(inodes), dp, name, k) && RemovedAs(old(inodes), inodes, dp, k)
      ensures s != Done ==> forall j: nat :: !Removable(old(inodes), dp, name, j)
      ensures s == Refused ==> inodes == old(inodes)
    {
      k := UnlinkMeans(inodes, dp, name);
      if dp >= |inodes| || inodes[dp].kind != Dir || name == "." || name == ".." { s := Refused; return; }
      var found := Lookup(inodes[dp].entries, name);
      SameLookup(inodes[dp].entries, name, found);
      if found.None? { s := Refused; return; }
      var off, ip := found.value, inodes[dp].entries[found.value].inum;
      if ip >= |inodes| || inodes[ip].nlink < 1 { s := Panicked; return; }
      var isDir := inodes[ip].kind == Dir;
      if isDir {
        var empty := IsDirEmpty(inodes[ip].entries);
        if !empty { s := Refused; return; }
      }
      inodes := inodes[dp := inodes[dp].(entries := inodes[dp].entries[off := EMPTY])];
      if isDir {
        inodes := inodes[dp := inodes[dp].(nlink := inodes[dp].nlink - 1)];
      }
      inodes := inodes[ip := inodes[ip].(nlink := inodes[ip].nlink - 1)];
      Iput(ip);
      s := Done; return;
    }
  }
}
