/** log.c's code over the buffer cache, as file-system operations call it one at a time (log.c:53-66, 125-231):
    whatever it does is a run of the state machine of `GroupCommit`.  The power may fail at any moment, also within a
    call: every disk a call goes through is the disk of a run, and a machine can be booted from each of them. */
module LogMachine {
  import opened Bio
  import opened LogSpec
  import opened LruRing
  import opened Options
  import opened WriteAheadLog
  import G = GroupCommit

  // A run from boot, and the state it leads to.
  datatype Run = Run(base: Disk, s0: G.Sys, acts: seq<G.Action>, s: G.Sys)

  ghost predicate IsRun(l: Layout, r: Run) {
    G.Boot(l, r.base, r.s0) && G.Exec(l, r.s0, r.acts) == G.Ok(r.s)
  }

  // r' is r and then `more`.
  ghost predicate Extends(r: Run, r': Run, more: seq<G.Action>) {
    r'.base == r.base && r'.s0 == r.s0 && r'.acts == r.acts + more
  }

  ghost function Then(l: Layout, r: Run, a: G.Action): (r': Run)
    requires IsRun(l, r) && G.Next(l, r.s, a).Ok?
    ensures IsRun(l, r') && Extends(r, r', [a]) && r'.s == G.Next(l, r.s, a).s
  {
    assert (r.acts + [a])[..|r.acts|] == r.acts;
    Run(r.base, r.s0, r.acts + [a], G.Next(l, r.s, a).s)
  }

  ghost function Writes(n: nat): seq<G.Action> {
    seq(n, _ => G.CommitWrite)
  }

  /* ---- a commit is a run of block writes ---- */

  lemma PlanOnDisk(l: Layout, base: Disk, s: G.Sys, k: nat)
    requires G.Inv(l, base, s) && k < |G.Plan(l, s)|
    ensures G.Plan(l, s)[k].b < |s.disk|
  {
    G.Unpack(l, base, s);
  }

  // m is s with n writes of its commit done.
  ghost predicate Mid(l: Layout, s: G.Sys, m: G.Sys, n: nat) {
    && n <= |G.Plan(l, s)| && m.committing && m.step == n && m.origin == s.origin && m.open == s.open
    && m.block == s.block && m.content == s.content
    && m.disk == Apply(s.origin, G.Plan(l, s)[..n])
  }

  lemma MidNext(l: Layout, base: Disk, s: G.Sys, m: G.Sys, n: nat)
    requires G.Inv(l, base, m) && Mid(l, s, m, n) && n < |G.Plan(l, s)|
    ensures G.Next(l, m, G.CommitWrite).Ok? && Mid(l, s, G.Next(l, m, G.CommitWrite).s, n + 1)
  {
    assert G.Plan(l, m) == G.Plan(l, s);
    PlanOnDisk(l, base, m, n);
    G.PlanStep(s.origin, G.Plan(l, s), n);
  }

  lemma WritesNext(r: Run, m: Run, r': Run, n: nat)
    requires Extends(r, m, Writes(n)) && Extends(m, r', [G.CommitWrite])
    ensures Extends(r, r', Writes(n + 1))
  {
    assert Writes(n + 1) == Writes(n) + [G.CommitWrite];
    Append(r, m, r', Writes(n), [G.CommitWrite]);
  }

  lemma {:induction false} CommitRun(l: Layout, r: Run, n: nat) returns (r': Run)
    requires IsRun(l, r) && Mid(l, r.s, r.s, 0) && n <= |G.Plan(l, r.s)|
    ensures IsRun(l, r') && Extends(r, r', Writes(n)) && Mid(l, r.s, r'.s, n)
    decreases n
  {
    if n == 0 {
      r' := r;
      assert r.acts + Writes(0) == r.acts;
    } else {
      var m := CommitRun(l, r, n - 1);
      G.RunKeeps(l, m.base, m.s0, m.acts, m.s);
      MidNext(l, m.base, r.s, m.s, n - 1);
      r' := Then(l, m, G.CommitWrite);
      WritesNext(r, m, r', n - 1);
    }
  }

  // Only what a block holds at home matters.
  lemma SamePlan(l: Layout, h: Block, c: Disk, c': Disk, blocks: seq<nat>)
    requires SameHome(l, c, c') && Loggable(l, |c|, blocks)
    ensures CommitWrites(l, h, c, blocks) == CommitWrites(l, h, c', blocks)
  {
    assert LogCopies(l, c, blocks) == LogCopies(l, c', blocks);
    assert HomeCopies(l, c, blocks) == HomeCopies(l, c', blocks);
  }

  // What commit may rely on.
  lemma CommitFacts(l: Layout, r: Run)
    requires IsRun(l, r) && r.s.committing && r.s.step == 0 && r.s.disk == r.s.origin
    ensures HeadOk(l, r.s.disk) && Head(l, r.s.disk) == [] && Loggable(l, |r.s.content|, r.s.block)
    ensures |r.s.content| == |r.s.disk|
  {
    G.RunKeeps(l, r.base, r.s0, r.acts, r.s);
    G.Unpack(l, r.base, r.s);
  }

  // The disk after n writes of commit, given what is in the cache.
  ghost predicate AfterWrites(l: Layout, d: Disk, block: seq<nat>, c: Disk, disk: Disk, n: nat)
    requires Loggable(l, |c|, block) && l.Fits(d)
  {
    var ws := CommitWrites(l, d[l.start], c, block);
    if block == [] then n == 0 && disk == d else n <= |ws| && disk == Apply(d, ws[..n])
  }

  ghost function PlanSize(block: seq<nat>): nat {
    if block == [] then 0 else 2 * |block| + 2
  }

  lemma CommitCut(l: Layout, r: Run, c: Disk, disk: Disk, n: nat) returns (r': Run)
    requires IsRun(l, r) && r.s.committing && r.s.step == 0 && r.s.disk == r.s.origin && SameHome(l, r.s.content, c)
    requires Loggable(l, |c|, r.s.block) && l.Fits(r.s.disk) && AfterWrites(l, r.s.disk, r.s.block, c, disk, n)
    ensures IsRun(l, r') && Extends(r, r', Writes(n)) && r'.s.disk == disk
    ensures r'.s.committing && r'.s.step == n && |G.Plan(l, r'.s)| == PlanSize(r.s.block)
    ensures r'.s.open == r.s.open
  {
    CommitFacts(l, r);
    SamePlan(l, r.s.origin[l.start], r.s.content, c, r.s.block);
    assert G.Plan(l, r.s)[..0] == [];
    assert G.Plan(l, r.s) == if r.s.block == [] then [] else CommitWrites(l, r.s.disk[l.start], c, r.s.block);
    r' := CommitRun(l, r, n);
  }

  lemma CommitEnd(l: Layout, r: Run) returns (r': Run)
    requires IsRun(l, r) && r.s.committing && r.s.step == |G.Plan(l, r.s)|
    ensures IsRun(l, r') && Extends(r, r', [G.CommitDone]) && r'.s == r.s.(committing := false, block := [])
    ensures SameHome(l, r'.s.content, r'.s.disk)
  {
    r' := Then(l, r, G.CommitDone);
    G.RunKeeps(l, r'.base, r'.s0, r'.acts, r'.s);
    G.Unpack(l, r'.base, r'.s);
  }

  lemma StillReadable(l: Layout, r: Run, cuts: seq<nat>)
    requires IsRun(l, r)
    ensures HeadOk(l, r.s.disk) && HeadOk(l, AfterCrashes(l, r.s.disk, cuts))
  {
    G.RunKeeps(l, r.base, r.s0, r.acts, r.s);
    G.Recoverable(l, r.base, r.s);
    OneMoreCut(l, r.s.disk, cuts, 0);
  }

  lemma Rebooted(l: Layout, r: Run, cuts: seq<nat>) returns (r': Run)
    requires IsRun(l, r)
    ensures HeadOk(l, r.s.disk) && HeadOk(l, AfterCrashes(l, r.s.disk, cuts))
    ensures IsRun(l, r') && Extends(r, r', [G.Crash(cuts)])
    ensures r'.s.disk == Recovered(l, AfterCrashes(l, r.s.disk, cuts))
    ensures r'.s.content == r'.s.disk && r'.s.block == [] && r'.s.open == map[] && !r'.s.committing
  {
    StillReadable(l, r, cuts);
    G.CrashNeverBlocks(l, r.base, r.s0, r.acts, r.s, cuts);
    r' := Then(l, r, G.Crash(cuts));
  }

  lemma Append(r: Run, r1: Run, r2: Run, a: seq<G.Action>, b: seq<G.Action>)
    requires Extends(r, r1, a) && Extends(r1, r2, b)
    ensures Extends(r, r2, a + b)
  {
    assert r.acts + a + b == r.acts + (a + b);
  }

  // The disk after the k-th write since the trail had t entries.
  ghost function After(trail: seq<Disk>, t: nat, k: nat): Disk
    requires 0 < k && t + k <= |trail|
  {
    trail[t + k - 1]
  }

  // The disks since then are those of the writes of a commit.
  ghost predicate EachWritten(l: Layout, d: Disk, block: seq<nat>, c: Disk, trail: seq<Disk>, t: nat, n: nat)
    requires Loggable(l, |c|, block) && l.Fits(d)
  {
    |trail| == t + n && forall k | 0 < k <= n :: AfterWrites(l, d, block, c, After(trail, t, k), k)
  }

  lemma WrittenOut(l: Layout, t0: seq<Disk>, trail: seq<Disk>, d: Disk, disk: Disk, c: Disk, block: seq<nat>, n: nat)
    requires Loggable(l, |c|, block) && l.Fits(d) && block != []
    requires Progress(t0, trail, d, disk, CommitWrites(l, d[l.start], c, block), n)
    ensures EachWritten(l, d, block, c, trail, |t0|, n) && AfterWrites(l, d, block, c, disk, n)
  {
    Marks(t0, trail, d, disk, CommitWrites(l, d[l.start], c, block), n);
    forall k | 0 < k <= n
      ensures AfterWrites(l, d, block, c, After(trail, |t0|, k), k)
    {
      assert trail[|t0| + k - 1] == Apply(d, CommitWrites(l, d[l.start], c, block)[..k]);
    }
  }

  lemma Ended(l: Layout, r: Run, r1: Run, r2: Run, op: nat, ok: bool, n: nat)
    requires Extends(r, r1, [G.End(op)])
    requires if ok then Extends(r1, r2, Writes(n) + [G.CommitDone]) else r2 == r1
    ensures ok ==> Extends(r, r2, [G.End(op)] + Writes(n) + [G.CommitDone])
    ensures !ok ==> Extends(r, r2, [G.End(op)])
  {
    if ok {
      Append(r, r1, r2, [G.End(op)], Writes(n) + [G.CommitDone]);
      assert [G.End(op)] + (Writes(n) + [G.CommitDone]) == [G.End(op)] + Writes(n) + [G.CommitDone];
    }
  }

  // A cache as binit leaves it.
  lemma NewCache(bufs: seq<Buf>)
    requires bufs == Unused()
    ensures LockedBlocks(bufs) == {} && DirtyBlocks(bufs) == {} && RefsOf(bufs) == NoRef()
  {
    NoRefsIff(bufs);
  }

  /* ---- operations that are open ---- */

  lemma OneLess(open: map<nat, nat>, op: nat)
    requires op in open
    ensures |open - {op}| == |open| - 1 && (open - {op} == map[] <==> |open| == 1)
  {
    assert open.Keys == (open - {op}).Keys + {op};
    assert |open.Keys| == |open| && |(open - {op}).Keys| == |open - {op}|;
    if |open - {op}| == 0 { assert (open - {op}).Keys == {}; }
  }

  lemma SameOps(open: map<nat, nat>, open': map<nat, nat>, op: nat)
    requires op in open && op in open' && open' == open[op := open'[op]]
    ensures |open'| == |open|
  {
    assert open'.Keys == open.Keys && |open| == |open.Keys| && |open'| == |open'.Keys|;
  }

  /* ---- stopping and starting again ---- */

  lemma {:induction false} OneMoreCut(l: Layout, d: Disk, cuts: seq<nat>, n: nat)
    requires HeadOk(l, d)
    ensures HeadOk(l, AfterCrashes(l, d, cuts))
    ensures var e := AfterCrashes(l, d, cuts);
            n <= |RecoverWrites(l, e)| ==> AfterCrashes(l, d, cuts + [n]) == Apply(e, RecoverWrites(l, e)[..n])
    decreases |cuts|
  {
    if cuts == [] {
      assert (cuts + [n])[1..] == [];
    } else {
      var rw := RecoverWrites(l, d);
      var k := if cuts[0] < |rw| then cuts[0] else |rw|;
      var d' := Apply(d, rw[..k]);
      assert HeadOk(l, d') by { RecoveryCutIsHarmless(l, d, k); }
      assert (cuts + [n])[1..] == cuts[1..] + [n];
      assert AfterCrashes(l, d, cuts) == AfterCrashes(l, d', cuts[1..]);
      assert AfterCrashes(l, d, cuts + [n]) == AfterCrashes(l, d', cuts[1..] + [n]);
      OneMoreCut(l, d', cuts[1..], n);
    }
  }

  // Every disk that a recovery goes through is what it leaves if it is cut short there.
  lemma EachCutShort(l: Layout, d: Disk, cuts: seq<nat>, e: Disk, trail: seq<Disk>, disk: Disk, n: nat)
    requires HeadOk(l, d) && e == AfterCrashes(l, d, cuts) && HeadOk(l, e)
    requires Progress([e], trail, e, disk, RecoverWrites(l, e), n)
    ensures forall k | 0 <= k < |trail| :: trail[k] == AfterCrashes(l, d, cuts + [k])
  {
    Marks([e], trail, e, disk, RecoverWrites(l, e), n);
    forall k | 0 <= k < |trail|
      ensures trail[k] == AfterCrashes(l, d, cuts + [k])
    {
      OneMoreCut(l, d, cuts, k);
      if k == 0 { assert RecoverWrites(l, e)[..0] == []; }
    }
  }

  // The disk after r and then `more`.
  ghost predicate LeftBy(l: Layout, r: Run, more: seq<G.Action>, disk: Disk) {
    exists r': Run :: IsRun(l, r') && Extends(r, r', more) && r'.s.disk == disk
  }

  lemma CutLeft(l: Layout, r: Run, c: Disk, disk: Disk, n: nat)
    requires IsRun(l, r) && r.s.committing && r.s.step == 0 && r.s.disk == r.s.origin && SameHome(l, r.s.content, c)
    requires Loggable(l, |c|, r.s.block) && l.Fits(r.s.disk) && AfterWrites(l, r.s.disk, r.s.block, c, disk, n)
    ensures LeftBy(l, r, Writes(n), disk)
  {
    var r' := CommitCut(l, r, c, disk, n);
  }

  // The disks since the trail had t entries are those of r, then `more`, and then one write, two writes and so on.
  ghost predicate EachLeft(l: Layout, r: Run, more: seq<G.Action>, trail: seq<Disk>, t: nat, n: nat) {
    |trail| == t + n && forall k | 0 < k <= n :: LeftBy(l, r, more + Writes(k), After(trail, t, k))
  }

  lemma EachCut(l: Layout, r: Run, c: Disk, trail: seq<Disk>, t: nat, n: nat)
    requires IsRun(l, r) && r.s.committing && r.s.step == 0 && r.s.disk == r.s.origin && SameHome(l, r.s.content, c)
    requires Loggable(l, |c|, r.s.block) && l.Fits(r.s.disk) && EachWritten(l, r.s.disk, r.s.block, c, trail, t, n)
    ensures EachLeft(l, r, [], trail, t, n)
  {
    forall k | 0 < k <= n
      ensures LeftBy(l, r, [] + Writes(k), After(trail, t, k))
    {
      CutLeft(l, r, c, After(trail, t, k), k);
      assert [] + Writes(k) == Writes(k);
    }
  }

  lemma EachLater(l: Layout, r: Run, r1: Run, a: seq<G.Action>, trail: seq<Disk>, t: nat, n: nat)
    requires Extends(r, r1, a) && EachLeft(l, r1, [], trail, t, n)
    ensures EachLeft(l, r, a, trail, t, n)
  {
    forall k | 0 < k <= n
      ensures LeftBy(l, r, a + Writes(k), After(trail, t, k))
    {
      assert [] + Writes(k) == Writes(k);
      LeftLater(l, r, r1, a, Writes(k), After(trail, t, k));
    }
  }

  lemma LeftLater(l: Layout, r: Run, r1: Run, a: seq<G.Action>, b: seq<G.Action>, disk: Disk)
    requires Extends(r, r1, a) && LeftBy(l, r1, b, disk)
    ensures LeftBy(l, r, a + b, disk)
  {
    var r2: Run :| IsRun(l, r2) && Extends(r1, r2, b) && r2.s.disk == disk;
    Append(r, r1, r2, a, b);
  }

  lemma {:induction false} DistinctMembers(block: seq<nat>)
    requires forall i, j | 0 <= i < j < |block| :: block[i] != block[j]
    ensures |Members(block)| == |block|
  {
    if block == [] {
      assert Members(block) == {};
    } else {
      var n := |block| - 1;
      DistinctMembers(block[..n]);
      OneMoreOf(block, n);
      assert block[..n + 1] == block && block[n] !in block[..n];
    }
  }

  lemma RunDistinct(l: Layout, r: Run)
    requires IsRun(l, r)
    ensures |Members(r.s.block)| == |r.s.block| <= l.size - 1 && |r.s.block| <= LOGSIZE
  {
    G.RunKeeps(l, r.base, r.s0, r.acts, r.s);
    G.Unpack(l, r.base, r.s);
    DistinctMembers(r.s.block);
  }

  /* ---- does the cache have room for a commit? ---- */

  // Unless the group is full, the commit at the end of its last operation goes through.
  ghost predicate CommitFits(l: Layout, r: Run, op: nat) {
    IsRun(l, r) && G.FewCalls(l, r.s0, r.acts) && op in r.s.open && |r.s.open| == 1 ==> |r.s.block| < NBUF
  }

  ghost predicate NeverStuck(l: Layout) {
    forall r: Run, op: nat :: CommitFits(l, r, op)
  }

  lemma EndOne(l: Layout, r: Run, op: nat) returns (r': Run)
    requires IsRun(l, r) && G.FewCalls(l, r.s0, r.acts) && op in r.s.open && !r.s.committing && |r.s.open| > 1
    ensures IsRun(l, r') && G.FewCalls(l, r'.s0, r'.acts) && r'.s.block == r.s.block && !r'.s.committing
    ensures r'.s.open == r.s.open - {op} && |r'.s.open| == |r.s.open| - 1
  {
    OneLess(r.s.open, op);
    G.FewCallsSnoc(l, r.s0, r.acts, G.End(op));
    r' := Then(l, r, G.End(op));
  }

  // Three operations log LOGSIZE blocks.
  lemma FilledRun(l: Layout, z: Block) returns (r: Run)
    requires l.size - 1 >= LOGSIZE && z[0] == 0
    ensures IsRun(l, r) && G.FewCalls(l, r.s0, r.acts) && |r.s.block| == NBUF && !r.s.committing
    ensures 0 in r.s.open && 1 in r.s.open && 2 in r.s.open && |r.s.open| == 3
  {
    var base: Disk := seq(l.start + l.size + LOGSIZE, _ => z);
    var s0 := G.Sys(base, base, [], map[], map[], 0, false, base, 0, [], [], []);
    G.BlankBoots(l, z, base, s0);
    G.Fill(l, s0, LOGSIZE, z);
    var acts := G.Filling(l, LOGSIZE, z);
    r := Run(base, s0, acts, G.Exec(l, s0, acts).s);
    assert r.s.open.Keys == {0, 1, 2} && |r.s.open| == |r.s.open.Keys|;
  }

  // Two of them end.
  lemma FullGroup(l: Layout, z: Block) returns (r: Run)
    requires l.size - 1 >= LOGSIZE && z[0] == 0
    ensures IsRun(l, r) && G.FewCalls(l, r.s0, r.acts) && |r.s.block| == NBUF && 2 in r.s.open && |r.s.open| == 1
  {
    r := FilledRun(l, z);
    r := EndOne(l, r, 0);
    r := EndOne(l, r, 1);
  }

  /** A commit can always be written out, if no operation calls log_write more than MAXOPBLOCKS times, exactly when
      the log has fewer than NBUF blocks besides its header: write_log needs a buffer besides the pinned ones. */
  lemma NeverStuckIff(l: Layout)
    requires l.size >= 1
    ensures NeverStuck(l) <==> l.size - 1 < NBUF
  {
    if l.size - 1 < NBUF {
      forall r: Run, op: nat
        ensures CommitFits(l, r, op)
      {
        if IsRun(l, r) { RunDistinct(l, r); }
      }
    } else {
      var r := FullGroup(l, seq(BWORDS, _ => 0));
      assert !CommitFits(l, r, 2);
    }
  }

  /** As NBUF is LOGSIZE (param.h:11-12), no size of the log avoids both panics, "too big a transaction" and
      "bget: no buffers". */
  lemma NoSafeSize(l: Layout)
    requires l.size >= 1
    ensures !(NeverStuck(l) && G.NeverTooBig(l))
  {
    NeverStuckIff(l);
    G.ReservationSufficesIff(l);
  }

  class Machine {
    const l: Layout
    var log: Log
    ghost var run: Run

    // The machine is up, between two calls.
    ghost predicate Running()
      reads this, log, log.cache
    {
      && IsRun(l, run) && Up()
      && run.s.block == log.block && |run.s.open| == log.outstanding && !run.s.committing
      && run.s.disk == log.cache.disk && SameHome(l, run.s.content, log.cache.content)
    }

    ghost predicate Up()
      reads this, log, log.cache
    {
      && log.l == l && !log.committing && Idle() && log.cache.Dirty() == Members(log.block)
    }

    // Nobody holds a buffer.
    ghost predicate Idle()
      reads this, log, log.cache
    {
      log.cache.Valid() && log.cache.Locked() == {} && log.cache.Refs() == NoRef()
    }

    /** The first boot, on a disk whose log can be read. */
    constructor (image: Disk, l: Layout)
      requires HeadOk(l, image)
      ensures Running() && this.l == l && run.base == Recovered(l, image) && run.acts == []
      ensures fresh(log) && fresh(log.cache)
      ensures forall k | 0 <= k < |log.cache.trail| :: log.cache.trail[k] == AfterCrashes(l, image, [k])
    {
      this.l := l;
      var cache := new BufferCache(image);
      log := new Log(cache, l);
      var base := Recovered(l, image);
      var s := G.Sys(base, base, [], map[], map[], 0, false, base, 0, [], [], []);
      run := Run(base, s, [], s);
      new;
      EmptyHead(l, base, image[l.start]);
      Recover(image, []);
      assert forall k: nat :: [] + [k] == [k];
    }

    /** Boot from what a run left on the disk, after any number of boots whose recovery was cut short.  Every disk
        that this one goes through is that of one more such boot. */
    constructor Boot(image: Disk, l: Layout, ghost r: Run, ghost cuts: seq<nat>)
      requires IsRun(l, r) && image == AfterCrashes(l, r.s.disk, cuts)
      ensures Running() && this.l == l && Extends(r, run, [G.Crash(cuts)])
      ensures fresh(log) && fresh(log.cache)
      ensures forall k | 0 <= k < |log.cache.trail| :: log.cache.trail[k] == AfterCrashes(l, r.s.disk, cuts + [k])
    {
      this.l := l;
      var cache := new BufferCache(image);
      log := new Log(cache, l);
      ghost var r' := Rebooted(l, r, cuts);
      run := r';
      new;
      StillReadable(l, r, cuts);
      Recover(r.s.disk, cuts);
    }

    // initlog's recover_from_log on a new cache, from what the cuts left of disk d.
    method Recover(ghost d: Disk, ghost cuts: seq<nat>)
      requires log.l == l && !log.committing && log.outstanding == 0 && log.cache.Valid() && log.cache.bufs == Unused()
      requires HeadOk(l, d) && log.cache.disk == AfterCrashes(l, d, cuts) && HeadOk(l, log.cache.disk)
      requires log.cache.trail == [log.cache.disk]
      modifies log, log.cache
      ensures log.cache == old(log.cache) && log.outstanding == 0 && log.block == [] && Up()
      ensures log.cache.disk == log.cache.content == Recovered(l, old(log.cache.disk))
      ensures forall k | 0 <= k < |log.cache.trail| :: log.cache.trail[k] == AfterCrashes(l, d, cuts + [k])
    {
      ghost var e := log.cache.disk;
      NewCache(log.cache.bufs);
      var ok;
      ghost var n;
      ok, n := log.RecoverFromLog();
      AllSettled();
      EachCutShort(l, d, cuts, e, log.cache.trail, log.cache.disk, n);
    }

    // Nothing is pinned and nobody holds a buffer: the cache has what the disk has.
    lemma AllSettled()
      requires log.cache.Valid() && log.cache.Locked() == log.cache.Dirty() == {}
      ensures log.cache.content == log.cache.disk
    {
      forall b | 0 <= b < |log.cache.disk|
        ensures log.cache.content[b] == log.cache.disk[b]
      {
        log.cache.Settled(b);
      }
    }

    /** One try of begin_op. */
    method BeginOp() returns (entered: bool)
      requires Running()
      modifies this`run, log
      ensures Running() && log == old(log) && log.cache == old(log.cache)
      ensures entered ==> Extends(old(run), run, [G.Begin])
      ensures !entered ==> run == old(run) && G.Next(l, run.s, G.Begin).Blocked?
      ensures entered <==> |log.block| + MAXOPBLOCKS * old(|run.s.open|) + MAXOPBLOCKS <= LOGSIZE
    {
      entered := log.BeginOp();
      if entered {
        G.RunKeeps(l, run.base, run.s0, run.acts, run.s);
        assert run.s.next !in run.s.open;
        assert run.s.open[run.s.next := 0].Keys == run.s.open.Keys + {run.s.next};
        run := Then(l, run, G.Begin);
        assert |run.s.open| == |run.s.open.Keys|;
      }
    }

    /** bread, change and log_write of a block by an open operation: it panics exactly when the state machine does,
        and writes nothing to the disk. */
    method WriteBlock(op: nat, b: nat, d: Block) returns (ok: bool)
      requires Running() && op in run.s.open && b < |log.cache.disk| && !l.InLog(b)
      modifies this`run, log, log.cache
      ensures log == old(log) && log.cache == old(log.cache)
      ensures ok <==> G.Next(l, old(run).s, G.LogWrite(op, b, d)).Ok?
      ensures ok <==> old(|log.block|) < LOGSIZE && old(|log.block|) < l.size - 1
      ensures ok ==> Running() && Extends(old(run), run, [G.LogWrite(op, b, d)])
      ensures ok ==> |old(log.cache.content)| > b && log.cache.content == old(log.cache.content)[b := d]
      ensures ok ==> b in log.block && old(log.block) <= log.block
      ensures !ok ==> run == old(run) && log.cache.disk == run.s.disk
      ensures log.cache.trail == old(log.cache.trail)
    {
      ghost var s := run.s;
      RunDistinct(l, run);
      G.RunKeeps(l, run.base, run.s0, run.acts, run.s);
      G.Unpack(l, run.base, run.s);
      ok := ChangeBlock(b, d);
      if ok {
        run := Then(l, run, G.LogWrite(op, b, d));
        SameOps(s.open, run.s.open, op);
      }
    }

    // The same without the history.
    method ChangeBlock(b: nat, d: Block) returns (ok: bool)
      requires Up() && b < |log.cache.disk| && |Members(log.block)| <= |log.block|
      modifies log, log.cache
      ensures log.cache == old(log.cache) && log.cache.disk == old(log.cache.disk)
      ensures log.outstanding == old(log.outstanding) && log.cache.trail == old(log.cache.trail)
      ensures ok <==> old(|log.block|) < LOGSIZE && old(|log.block|) < l.size - 1 && log.outstanding >= 1
      ensures ok ==> Up() && log.block == Absorb(old(log.block), b) && |old(log.cache.content)| > b
      ensures ok ==> log.cache.content == old(log.cache.content)[b := d]
    {
      Readable(b);
      var r := Change(b, d);
      if r.None? { return false; }
      ok := LogIt(r.value, b);
    }

    // bread of a block, and new data for it.
    method Change(b: nat, d: Block) returns (r: Option<nat>)
      requires Idle() && b < |log.cache.disk|
      modifies log.cache
      ensures log.cache.disk == old(log.cache.disk) && log.cache.trail == old(log.cache.trail)
      ensures r.Some? <==> CanRead(old(log.cache.bufs), b)
      ensures r.Some? ==> log.cache.Valid() && log.cache.Handle(r.value, b) && log.cache.Locked() == {b}
      ensures r.Some? ==> log.cache.Dirty() == old(log.cache.Dirty())
      ensures r.Some? ==> r.value < |NoRef()| && log.cache.Refs() == Held(NoRef(), r.value, 1)
      ensures r.Some? ==> |old(log.cache.content)| > b && log.cache.content == old(log.cache.content)[b := d]
    {
      var waits;
      r, waits := log.cache.BRead(b);
      if r.Some? { log.cache.Store(r.value, b, d); }
    }

    // log_write and brelse.
    method LogIt(i: nat, b: nat) returns (ok: bool)
      requires log.l == l && log.cache.Valid() && log.cache.Handle(i, b) && log.cache.Locked() == {b}
      requires i < |NoRef()| && log.cache.Refs() == Held(NoRef(), i, 1)
      modifies log, log.cache
      ensures log.cache == old(log.cache) && log.outstanding == old(log.outstanding)
      ensures log.committing == old(log.committing)
      ensures log.cache.disk == old(log.cache.disk) && log.cache.trail == old(log.cache.trail)
      ensures ok <==> old(|log.block|) < LOGSIZE && old(|log.block|) < l.size - 1 && log.outstanding >= 1
      ensures ok ==> Idle() && log.block == Absorb(old(log.block), b) && log.cache.content == old(log.cache.content)
      ensures ok ==> log.cache.Dirty() == old(log.cache.Dirty()) + {b}
    {
      ok := log.LogWrite(i, b);
      if !ok { return; }
      log.cache.Reflag(log.cache.bufs, i, b, log.cache.bufs[i]);
      var released := log.cache.BRelse(i);
      assert Held(Held(NoRef(), i, 1), i, -1) == NoRef();
    }

    // Unless the log is full, there is a buffer for any block.
    lemma Readable(b: nat)
      requires Idle() && log.cache.Dirty() == Members(log.block) && |Members(log.block)| <= |log.block|
      ensures |log.block| < LOGSIZE ==> CanRead(log.cache.bufs, b)
    {
      NoRefsIff(log.cache.bufs);
      ReadIff(log.cache.bufs, log.cache.disk, log.cache.content, log.cache.index, b);
    }

    /** end_op; the last operation commits.  A commit goes through exactly when fewer than NBUF blocks are logged;
        otherwise write_log finds no buffer and nothing is written.  Every disk on the way is that of the run so far,
        so power may fail after any of the n writes. */
    method EndOp(op: nat) returns (ok: bool, ghost n: nat)
      requires Running() && op in run.s.open
      modifies this`run, log, log.cache
      ensures log == old(log) && log.cache == old(log.cache)
      ensures ok <==> old(|run.s.open| > 1 || |log.block| < NBUF)
      ensures ok ==> Running()
      ensures !ok ==> n == 0 && Extends(old(run), run, [G.End(op)]) && IsRun(l, run) && log.cache.disk == run.s.disk
      ensures ok && old(|run.s.open|) > 1 ==> n == 0 && Extends(old(run), run, [G.End(op)])
      ensures ok && old(|run.s.open|) == 1 ==> n == PlanSize(old(log.block)) && log.block == []
      ensures ok && old(|run.s.open|) == 1 ==> SameHome(l, log.cache.disk, old(log.cache.content))
      ensures ok && old(|run.s.open|) == 1 ==> Extends(old(run), run, [G.End(op)] + Writes(n) + [G.CommitDone])
      ensures EachLeft(l, old(run), [G.End(op)], log.cache.trail, |old(log.cache.trail)|, n)
    {
      OneLess(run.s.open, op);
      ghost var r := run;
      var panic, last := log.EndOp();
      run := Then(l, run, G.End(op));
      ghost var r1 := run;
      n := 0;
      ok := true;
      if last {
        ok, n := Commit();
        Ended(l, r, r1, run, op, ok, n);
        EachLater(l, r, r1, [G.End(op)], log.cache.trail, |old(log.cache.trail)|, n);
      }
    }

    // end_op has set `committing` and calls commit.
    ghost predicate Ready()
      reads this, log, log.cache
    {
      && IsRun(l, run) && log.l == l && log.committing && log.outstanding == 0
      && Idle() && log.cache.Dirty() == Members(log.block)
      && run.s.block == log.block && run.s.open == map[] && run.s.committing && run.s.step == 0
      && run.s.disk == run.s.origin == log.cache.disk && SameHome(l, run.s.content, log.cache.content)
    }

    // commit(), and end_op's last critical section.
    method Commit() returns (ok: bool, ghost n: nat)
      requires Ready()
      modifies this`run, log, log.cache
      ensures log == old(log) && log.cache == old(log.cache)
      ensures ok <==> old(|log.block|) < NBUF
      ensures ok ==> Running() && Extends(old(run), run, Writes(n) + [G.CommitDone]) && n == PlanSize(old(log.block))
      ensures ok ==> log.block == [] && SameHome(l, log.cache.disk, old(log.cache.content))
      ensures !ok ==> n == 0 && run == old(run) && log.cache.disk == run.s.disk
      ensures EachLeft(l, old(run), [], log.cache.trail, |old(log.cache.trail)|, n)
    {
      ghost var r, c, t := run, log.cache.content, |log.cache.trail|;
      CommitFacts(l, r);
      RunDistinct(l, r);
      ok, n := WriteOut();
      EachCut(l, r, c, log.cache.trail, t, n);
      if ok {
        ghost var r1 := CommitCut(l, r, c, log.cache.disk, n);
        run := CommitEnd(l, r1);
        Append(r, r1, run, Writes(n), [G.CommitDone]);
      }
    }

    // The same without the history.
    method WriteOut() returns (ok: bool, ghost n: nat)
      requires log.l == l && log.ReadyToCommit() && Idle()
      modifies log, log.cache
      ensures log.cache == old(log.cache) && log.outstanding == old(log.outstanding)
      ensures ok <==> |Members(old(log.block))| < NBUF
      ensures !ok ==> n == 0 && log.cache.disk == old(log.cache.disk)
      ensures EachWritten(l, old(log.cache.disk), old(log.block), old(log.cache.content), log.cache.trail,
                          |old(log.cache.trail)|, n)
      ensures ok ==> AfterWrites(l, old(log.cache.disk), old(log.block), old(log.cache.content), log.cache.disk, n)
      ensures ok ==> n == PlanSize(old(log.block)) && log.block == [] && Up() && log.cache.content == log.cache.disk
      ensures ok ==> SameHome(l, log.cache.disk, old(log.cache.content))
    {
      ghost var t0, d0, c, block := log.cache.trail, log.cache.disk, log.cache.content, log.block;
      ok, n := log.Commit();
      if block == [] {
        n := 0;
      } else {
        WrittenOut(l, t0, log.cache.trail, d0, log.cache.disk, c, block, n);
      }
      if ok {
        log.committing := false;
        AllSettled();
      }
    }
  }
}
