/** What log.c writes to the disk, and what a crash can leave behind (log.c:69-122, 175-200).

    The disk is a sequence of blocks; every block write is atomic and they happen in order.
    A crash keeps the disk and drops memory, so the disk after a crash in the middle of an
    operation is the effect of a prefix of that operation's writes. */
module LogSpec {
  import opened Bio

  const MAXOPBLOCKS: nat := 10
  const LOGSIZE: nat := 3 * MAXOPBLOCKS

  type Disk = seq<Block>

  datatype Write = Write(b: nat, d: Block)

  // log.start and log.size: the header block followed by size - 1 log blocks.
  datatype Layout = Layout(start: nat, size: nat) {
    predicate InLog(b: nat) { start <= b < start + size }
    function Slot(t: nat): nat { start + 1 + t }
    predicate Fits(d: Disk) { size >= 1 && start + size <= |d| }
  }

  ghost function Apply(d: Disk, ws: seq<Write>): (r: Disk)
    ensures |r| == |d|
  {
    if ws == [] then d else
      var before := Apply(d, ws[..|ws| - 1]);
      var w := ws[|ws| - 1];
      if w.b < |d| then before[w.b := w.d] else before
  }

  ghost predicate Touches(ws: seq<Write>, b: nat) {
    exists k | 0 <= k < |ws| :: ws[k].b == b
  }

  ghost predicate SameHome(l: Layout, d1: Disk, d2: Disk) {
    |d1| == |d2| && forall b | 0 <= b < |d1| && !l.InLog(b) :: d1[b] == d2[b]
  }

  /* ---- the header block ---- */

  // Block numbers a transaction may log: on the disk and outside the log itself.
  ghost predicate Loggable(l: Layout, size: nat, blocks: seq<nat>) {
    && |blocks| <= LOGSIZE && |blocks| <= l.size - 1
    && forall t | 0 <= t < |blocks| :: blocks[t] < size && !l.InLog(blocks[t])
  }

  function PutHead(h: Block, blocks: seq<nat>): Block
    requires |blocks| <= LOGSIZE
  {
    [|blocks|] + blocks + h[1 + |blocks|..]
  }

  ghost predicate HeaderBlockOk(l: Layout, h: Block, size: nat) {
    && 0 <= h[0] <= LOGSIZE && h[0] <= l.size - 1
    && forall t | 1 <= t <= h[0] :: 0 <= h[t] < size && !l.InLog(h[t])
  }

  ghost predicate HeadOk(l: Layout, d: Disk) {
    l.Fits(d) && HeaderBlockOk(l, d[l.start], |d|)
  }

  ghost function Head(l: Layout, d: Disk): seq<nat>
    requires HeadOk(l, d)
  {
    d[l.start][1..1 + d[l.start][0]]
  }

  // Reading back a header gives what write_head put there.
  lemma HeadRoundTrip(l: Layout, d: Disk, h: Block, blocks: seq<nat>)
    requires l.Fits(d) && Loggable(l, |d|, blocks) && d[l.start] == PutHead(h, blocks)
    ensures HeadOk(l, d) && Head(l, d) == blocks
  {
    assert forall t | 1 <= t <= |blocks| :: d[l.start][t] == blocks[t - 1];
  }

  /* ---- the writes of commit and recovery, in order ---- */

  ghost function Installs(l: Layout, d: Disk, blocks: seq<nat>): seq<Write>
    requires l.Fits(d) && |blocks| <= l.size - 1
  {
    seq(|blocks|, t requires 0 <= t < |blocks| => Write(blocks[t], d[l.Slot(t)]))
  }

  ghost function LogCopies(l: Layout, content: Disk, blocks: seq<nat>): seq<Write>
    requires Loggable(l, |content|, blocks)
  {
    seq(|blocks|, t requires 0 <= t < |blocks| => Write(l.Slot(t), content[blocks[t]]))
  }

  ghost function HomeCopies(l: Layout, content: Disk, blocks: seq<nat>): seq<Write>
    requires Loggable(l, |content|, blocks)
  {
    seq(|blocks|, t requires 0 <= t < |blocks| => Write(blocks[t], content[blocks[t]]))
  }

  // recover_from_log: install_trans, then write_head with n = 0.
  ghost function RecoverWrites(l: Layout, d: Disk): seq<Write>
    requires HeadOk(l, d)
  {
    Installs(l, d, Head(l, d)) + [Write(l.start, PutHead(d[l.start], []))]
  }

  ghost function Recovered(l: Layout, d: Disk): Disk
    requires HeadOk(l, d)
  {
    Apply(d, RecoverWrites(l, d))
  }

  // After a crash that left d behind, recovery makes every home block equal to target's.
  ghost predicate RecoversTo(l: Layout, d: Disk, target: Disk) {
    HeadOk(l, d) && SameHome(l, Recovered(l, d), target)
  }

  // commit, first half: write_log, then write_head, "the real commit".
  ghost function LogPhase(l: Layout, h: Block, content: Disk, blocks: seq<nat>): seq<Write>
    requires Loggable(l, |content|, blocks)
  {
    LogCopies(l, content, blocks) + [Write(l.start, PutHead(h, blocks))]
  }

  // commit, second half: install_trans, then write_head with n = 0.
  ghost function InstallPhase(l: Layout, h: Block, content: Disk, blocks: seq<nat>): seq<Write>
    requires Loggable(l, |content|, blocks)
  {
    HomeCopies(l, content, blocks) + [Write(l.start, PutHead(h, []))]
  }

  ghost function CommitWrites(l: Layout, h: Block, content: Disk, blocks: seq<nat>): seq<Write>
    requires Loggable(l, |content|, blocks)
  {
    LogPhase(l, h, content, blocks) + InstallPhase(l, PutHead(h, blocks), content, blocks)
  }

  /** The writes of a commit, one by one: the copies to the log, the header with the number of blocks and then the
      blocks themselves, the copies home, and the header with number 0. */
  lemma CommitPlan(l: Layout, h: Block, content: Disk, blocks: seq<nat>)
    requires Loggable(l, |content|, blocks)
    ensures var ws, n := CommitWrites(l, h, content, blocks), |blocks|;
            && |ws| == 2 * n + 2
            && (forall t | 0 <= t < n :: ws[t] == Write(l.start + 1 + t, content[blocks[t]]))
            && ws[n].b == l.start && ws[n].d[0] == n && (forall t | 0 <= t < n :: ws[n].d[1 + t] == blocks[t])
            && (forall t | 0 <= t < n :: ws[n + 1 + t] == Write(blocks[t], content[blocks[t]]))
            && ws[2 * n + 1].b == l.start && ws[2 * n + 1].d[0] == 0
  {
  }

  /** The writes of a recovery: for each block that the header counts, the log block goes home; then the header is
      written with number 0. */
  lemma RecoveryPlan(l: Layout, d: Disk)
    requires HeadOk(l, d)
    ensures var ws, n := RecoverWrites(l, d), d[l.start][0];
            && |ws| == n + 1
            && (forall t | 0 <= t < n :: ws[t].b == d[l.start][1 + t] && ws[t].d == d[l.start + 1 + t])
            && ws[n].b == l.start && ws[n].d[0] == 0
  {
    var n := d[l.start][0];
    assert forall t | 0 <= t < n :: Head(l, d)[t] == d[l.start][1 + t] && l.Slot(t) == l.start + 1 + t;
  }

  /* ---- the in-memory log (log.c:125-165, 211-231) ---- */

  // begin_op lets an operation in.
  predicate Admits(n: nat, outstanding: nat, committing: bool) {
    !committing && n + (outstanding + 1) * MAXOPBLOCKS <= LOGSIZE
  }

  // log_write does not panic.
  predicate LogWriteAllowed(n: nat, size: nat, outstanding: nat) {
    n < LOGSIZE && n < size - 1 && outstanding >= 1
  }

  // Log absorption: a block already recorded is not recorded again.
  function Absorb(blocks: seq<nat>, b: nat): (r: seq<nat>)
    ensures b in r && forall c :: c in r <==> c == b || c in blocks
    ensures |r| <= |blocks| + 1
  {
    if b in blocks then blocks else blocks + [b]
  }

  /* ---- Apply, one block at a time ---- */

  lemma {:induction false} Untouched(d: Disk, ws: seq<Write>, b: nat)
    requires b < |d| && !Touches(ws, b)
    ensures Apply(d, ws)[b] == d[b]
  {
    if ws != [] {
      var before := ws[..|ws| - 1];
      assert forall k | 0 <= k < |before| :: before[k] == ws[k];
      Untouched(d, before, b);
    }
  }

  // Once every write to b carries v, block b is v as soon as one of them happened.
  lemma {:induction false} AllSame(d: Disk, ws: seq<Write>, b: nat, v: Block)
    requires b < |d|
    requires forall k | 0 <= k < |ws| :: ws[k].b == b ==> ws[k].d == v
    requires d[b] == v || Touches(ws, b)
    ensures Apply(d, ws)[b] == v
  {
    if ws != [] {
      var before := ws[..|ws| - 1];
      assert forall k | 0 <= k < |before| :: before[k] == ws[k];
      if ws[|ws| - 1].b != b {
        assert Touches(ws, b) ==> Touches(before, b);
        AllSame(d, before, b, v);
      }
    }
  }

  // A block that ws writes does not depend on what was there before.
  lemma {:induction false} Overwritten(d1: Disk, d2: Disk, ws: seq<Write>, b: nat)
    requires |d1| == |d2| && b < |d1|
    requires Touches(ws, b) || d1[b] == d2[b]
    ensures Apply(d1, ws)[b] == Apply(d2, ws)[b]
  {
    if ws != [] {
      var before := ws[..|ws| - 1];
      assert forall k | 0 <= k < |before| :: before[k] == ws[k];
      if ws[|ws| - 1].b != b {
        assert Touches(ws, b) ==> Touches(before, b);
        Overwritten(d1, d2, before, b);
      }
    }
  }

  lemma {:induction false} ApplyConcat(d: Disk, ws1: seq<Write>, ws2: seq<Write>)
    ensures Apply(d, ws1 + ws2) == Apply(Apply(d, ws1), ws2)
  {
    if ws2 == [] {
      assert ws1 + ws2 == ws1;
    } else {
      var n := |ws1 + ws2| - 1;
      assert (ws1 + ws2)[..n] == ws1 + ws2[..|ws2| - 1];
      ApplyConcat(d, ws1, ws2[..|ws2| - 1]);
    }
  }

  /* ---- crashes ---- */

  // If the header counts no blocks, recovery changes no home block.
  lemma NothingToRecover(l: Layout, d: Disk)
    requires HeadOk(l, d) && Head(l, d) == []
    ensures SameHome(l, Recovered(l, d), d)
  {
    forall b | 0 <= b < |d| && !l.InLog(b)
      ensures Recovered(l, d)[b] == d[b]
    {
      Untouched(d, RecoverWrites(l, d), b);
    }
  }

  // Once a header with n = 0 is in place, recovery changes no home block.
  lemma EmptyHead(l: Layout, d: Disk, h: Block)
    requires l.Fits(d) && d[l.start] == PutHead(h, [])
    ensures HeadOk(l, d) && Head(l, d) == [] && SameHome(l, Recovered(l, d), d)
  {
    HeadRoundTrip(l, d, h, []);
    NothingToRecover(l, d);
  }

  // Writing only home blocks leaves the pending recovery as it was.
  lemma SameLogSameRecovery(l: Layout, d: Disk, d': Disk)
    requires HeadOk(l, d) && |d'| == |d|
    requires forall b | 0 <= b < |d| && l.InLog(b) :: d'[b] == d[b]
    ensures HeadOk(l, d') && Head(l, d') == Head(l, d) && RecoverWrites(l, d') == RecoverWrites(l, d)
  {
    assert d'[l.start] == d[l.start];
    assert forall t | 0 <= t < |Head(l, d)| :: l.InLog(l.Slot(t));
  }

  // Redoing a list of writes after some of them have been done ends in the same state.
  lemma Redo(d: Disk, ws: seq<Write>, k: nat)
    requires k <= |ws|
    ensures Apply(Apply(d, ws[..k]), ws) == Apply(d, ws)
  {
    var d' := Apply(d, ws[..k]);
    forall b | 0 <= b < |d|
      ensures Apply(d', ws)[b] == Apply(d, ws)[b]
    {
      if Touches(ws[..k], b) {
        var m :| 0 <= m < k && ws[..k][m].b == b;
        assert ws[m].b == b;
      } else {
        Untouched(d, ws[..k], b);
      }
      Overwritten(d', d, ws, b);
    }
  }

  /** A crash after k of the writes of a recovery: the next complete recovery still produces
      the same file system. */
  lemma RecoveryCutIsHarmless(l: Layout, d: Disk, k: nat)
    requires HeadOk(l, d) && k <= |RecoverWrites(l, d)|
    ensures RecoversTo(l, Apply(d, RecoverWrites(l, d)[..k]), Recovered(l, d))
  {
    var rw := RecoverWrites(l, d);
    var d' := Apply(d, rw[..k]);
    if k < |rw| {
      forall b | 0 <= b < |d| && l.InLog(b)
        ensures d'[b] == d[b]
      {
        Untouched(d, rw[..k], b);
      }
      SameLogSameRecovery(l, d, d');
      Redo(d, rw, k);
    } else {
      assert rw[..k] == rw;
      EmptyHead(l, d', d[l.start]);
    }
  }

  // The disk after a series of boots, each of whose recoveries stops after cuts[i] writes.
  ghost function AfterCrashes(l: Layout, d: Disk, cuts: seq<nat>): Disk
    decreases |cuts|
  {
    if cuts == [] || !HeadOk(l, d) then d else
      var rw := RecoverWrites(l, d);
      AfterCrashes(l, Apply(d, rw[..if cuts[0] < |rw| then cuts[0] else |rw|]), cuts[1..])
  }

  /** Recovery itself may crash any number of times, anywhere. */
  lemma {:induction false} RecoveryMayCrashRepeatedly(l: Layout, d: Disk, cuts: seq<nat>)
    requires HeadOk(l, d)
    ensures RecoversTo(l, AfterCrashes(l, d, cuts), Recovered(l, d))
    decreases |cuts|
  {
    if cuts != [] {
      var rw := RecoverWrites(l, d);
      var k := if cuts[0] < |rw| then cuts[0] else |rw|;
      RecoveryCutIsHarmless(l, d, k);
      RecoveryMayCrashRepeatedly(l, Apply(d, rw[..k]), cuts[1..]);
    }
  }

  // The header and the log blocks hold the transaction, whatever the home blocks hold.
  ghost predicate Committed(l: Layout, d: Disk, content: Disk, blocks: seq<nat>) {
    && HeadOk(l, d) && |d| == |content| && Loggable(l, |d|, blocks) && Head(l, d) == blocks
    && forall t | 0 <= t < |blocks| :: d[l.Slot(t)] == content[blocks[t]]
  }

  lemma CommittedRecovers(l: Layout, d: Disk, content: Disk, blocks: seq<nat>)
    requires Committed(l, d, content, blocks)
    requires forall b | 0 <= b < |d| && !l.InLog(b) && b !in blocks :: d[b] == content[b]
    ensures SameHome(l, Recovered(l, d), content)
  {
    var rw := RecoverWrites(l, d);
    forall b | 0 <= b < |d| && !l.InLog(b)
      ensures Recovered(l, d)[b] == content[b]
    {
      if b in blocks {
        var t :| 0 <= t < |blocks| && blocks[t] == b;
        assert rw[t].b == b;
      }
      AllSame(d, rw, b, content[b]);
    }
  }

  // An empty log has nothing to recover.
  lemma EmptyLog(l: Layout, d: Disk, target: Disk)
    requires HeadOk(l, d) && Head(l, d) == [] && SameHome(l, d, target)
    ensures RecoversTo(l, d, target)
  {
    forall b | 0 <= b < |d| && !l.InLog(b)
      ensures Recovered(l, d)[b] == target[b]
    {
      Untouched(d, RecoverWrites(l, d), b);
    }
  }

  lemma BeforeHeader(l: Layout, d: Disk, content: Disk, blocks: seq<nat>, k: nat)
    requires HeadOk(l, d) && Head(l, d) == [] && |d| == |content| && Loggable(l, |d|, blocks)
    requires k <= |blocks|
    ensures RecoversTo(l, Apply(d, LogPhase(l, d[l.start], content, blocks)[..k]), d)
  {
    var ws := LogPhase(l, d[l.start], content, blocks)[..k];
    assert forall j | 0 <= j < k :: ws[j].b == l.Slot(j);
    Untouched(d, ws, l.start);
    forall b | 0 <= b < |d| && !l.InLog(b)
      ensures Apply(d, ws)[b] == d[b]
    {
      Untouched(d, ws, b);
    }
    EmptyLog(l, Apply(d, ws), d);
  }

  // The log phase writes the header last, ...
  lemma LogPhaseHead(l: Layout, d: Disk, content: Disk, blocks: seq<nat>)
    requires l.Fits(d) && |d| == |content| && Loggable(l, |d|, blocks)
    ensures Apply(d, LogPhase(l, d[l.start], content, blocks))[l.start] == PutHead(d[l.start], blocks)
  {
    var ws := LogCopies(l, content, blocks);
    assert LogPhase(l, d[l.start], content, blocks)[..|ws|] == ws;
  }

  // ... a copy of each block before that, ...
  lemma LogPhaseSlot(l: Layout, d: Disk, content: Disk, blocks: seq<nat>, t: nat)
    requires l.Fits(d) && |d| == |content| && Loggable(l, |d|, blocks) && t < |blocks|
    ensures Apply(d, LogPhase(l, d[l.start], content, blocks))[l.Slot(t)] == content[blocks[t]]
  {
    var ws := LogPhase(l, d[l.start], content, blocks);
    assert ws[t] == Write(l.Slot(t), content[blocks[t]]);
    AllSame(d, ws, l.Slot(t), content[blocks[t]]);
  }

  // ... and no home block.
  lemma LogPhaseHome(l: Layout, d: Disk, content: Disk, blocks: seq<nat>, b: nat)
    requires l.Fits(d) && |d| == |content| && Loggable(l, |d|, blocks) && b < |d| && !l.InLog(b)
    ensures Apply(d, LogPhase(l, d[l.start], content, blocks))[b] == d[b]
  {
    Untouched(d, LogPhase(l, d[l.start], content, blocks), b);
  }

  lemma LogPhaseCommits(l: Layout, d: Disk, content: Disk, blocks: seq<nat>)
    requires l.Fits(d) && |d| == |content| && Loggable(l, |d|, blocks)
    ensures var d' := Apply(d, LogPhase(l, d[l.start], content, blocks));
            Committed(l, d', content, blocks) && SameHome(l, d', d)
  {
    var d' := Apply(d, LogPhase(l, d[l.start], content, blocks));
    forall b | 0 <= b < |d| && !l.InLog(b) ensures d'[b] == d[b] { LogPhaseHome(l, d, content, blocks, b); }
    forall t | 0 <= t < |blocks|
      ensures d'[l.Slot(t)] == content[blocks[t]]
    {
      LogPhaseSlot(l, d, content, blocks, t);
    }
    LogPhaseHead(l, d, content, blocks);
    HeadRoundTrip(l, d', d[l.start], blocks);
  }

  lemma AfterHeader(l: Layout, d: Disk, content: Disk, blocks: seq<nat>, k: nat)
    requires Committed(l, d, content, blocks)
    requires forall b | 0 <= b < |d| && !l.InLog(b) && b !in blocks :: d[b] == content[b]
    requires k <= |InstallPhase(l, d[l.start], content, blocks)|
    ensures RecoversTo(l, Apply(d, InstallPhase(l, d[l.start], content, blocks)[..k]), content)
  {
    CommittedRecovers(l, d, content, blocks);
    assert Installs(l, d, blocks) == HomeCopies(l, content, blocks);
    RecoveryCutIsHarmless(l, d, k);
  }

  lemma TakeConcat<T>(s: seq<T>, t: seq<T>, k: nat)
    requires k <= |s + t|
    ensures k <= |s| ==> (s + t)[..k] == s[..k]
    ensures k > |s| ==> (s + t)[..k] == s + t[..k - |s|]
  {
  }

  /** Crash atomicity.  Let d have an empty log and differ from `content` only in the logged
      home blocks.  If the machine stops after any k of commit's writes, the next recovery
      yields all of the new contents when the header write had happened, and none of them
      when it had not. */
  lemma CrashAtomicity(l: Layout, d: Disk, content: Disk, blocks: seq<nat>, k: nat)
    requires HeadOk(l, d) && Head(l, d) == [] && |d| == |content| && Loggable(l, |d|, blocks)
    requires forall b | 0 <= b < |d| && !l.InLog(b) && b !in blocks :: d[b] == content[b]
    requires k <= |CommitWrites(l, d[l.start], content, blocks)|
    ensures RecoversTo(l, Apply(d, CommitWrites(l, d[l.start], content, blocks)[..k]),
                       if k <= |blocks| then d else content)
  {
    var h := d[l.start];
    var first, second := LogPhase(l, h, content, blocks), InstallPhase(l, PutHead(h, blocks), content, blocks);
    TakeConcat(first, second, k);
    if k <= |blocks| {
      BeforeHeader(l, d, content, blocks, k);
    } else {
      var d1, m := Apply(d, first), k - |first|;
      assert (first + second)[..k] == first + second[..m];
      ApplyConcat(d, first, second[..m]);
      LogPhaseCommits(l, d, content, blocks);
      LogPhaseHead(l, d, content, blocks);
      AfterHeader(l, d1, content, blocks, m);
    }
  }
}

/** log.c over the buffer cache of bio.c.

    A panic in the buffer cache stops the machine, as a crash does: the methods return false
    and their contracts still say exactly which disk writes had happened. */
module WriteAheadLog {
  import opened Bio
  import opened LogSpec
  import opened LruRing
  import opened Options

  // The disk went from d through the first n of the writes ws, and `trail` recorded each state.
  ghost predicate Progress(before: seq<Disk>, trail: seq<Disk>, d: Disk, disk: Disk, ws: seq<Write>, n: nat) {
    && n <= |ws| && disk == Apply(d, ws[..n]) && |trail| == |before| + n
    && forall m: Mark :: Marked(m, before, trail, d, ws, n)
  }

  datatype Mark = Before | Since

  // The states before are kept, and those since are the disk after one write, two writes and so on.
  ghost predicate Marked(m: Mark, before: seq<Disk>, trail: seq<Disk>, d: Disk, ws: seq<Write>, n: nat)
    requires n <= |ws| && |trail| == |before| + n
  {
    match m
    case Before => before <= trail
    case Since => forall k | 1 <= k <= n :: trail[|before| + k - 1] == Apply(d, ws[..k])
  }

  lemma Marks(before: seq<Disk>, trail: seq<Disk>, d: Disk, disk: Disk, ws: seq<Write>, n: nat)
    requires Progress(before, trail, d, disk, ws, n)
    ensures before <= trail && forall k | 1 <= k <= n :: trail[|before| + k - 1] == Apply(d, ws[..k])
  {
    assert Marked(Before, before, trail, d, ws, n) && Marked(Since, before, trail, d, ws, n);
  }

  lemma ProgressAt(before: seq<Disk>, trail: seq<Disk>, d: Disk, disk: Disk, ws: seq<Write>, n: nat, k: nat)
    requires Progress(before, trail, d, disk, ws, n) && k < n
    ensures trail[|before|..][k] == Apply(d, ws[..k + 1])
  {
    Marks(before, trail, d, disk, ws, n);
    assert trail[|before| + (k + 1) - 1] == Apply(d, ws[..k + 1]);
  }

  lemma ApplyNext(d: Disk, ws: seq<Write>, n: nat)
    requires n < |ws| && ws[n].b < |d|
    ensures Apply(d, ws[..n + 1]) == Apply(d, ws[..n])[ws[n].b := ws[n].d]
  {
    assert ws[..n + 1][..n] == ws[..n];
  }

  lemma ProgressOne(before: seq<Disk>, trail: seq<Disk>, d: Disk, disk: Disk, ws: seq<Write>, n: nat, disk': Disk)
    requires Progress(before, trail, d, disk, ws, n) && n < |ws|
    requires ws[n].b < |d| && disk' == disk[ws[n].b := ws[n].d]
    ensures Progress(before, trail + [disk'], d, disk', ws, n + 1)
  {
    Marks(before, trail, d, disk, ws, n);
    assert ws[..n + 1][..n] == ws[..n];
  }

  lemma ProgressConcat(t0: seq<Disk>, t1: seq<Disk>, t2: seq<Disk>, d: Disk, d1: Disk, d2: Disk,
                       ws1: seq<Write>, ws2: seq<Write>, n: nat)
    requires Progress(t0, t1, d, d1, ws1, |ws1|) && Progress(t1, t2, d1, d2, ws2, n)
    ensures Progress(t0, t2, d, d2, ws1 + ws2, |ws1| + n)
  {
    Marks(t0, t1, d, d1, ws1, |ws1|);
    Marks(t1, t2, d1, d2, ws2, n);
    assert ws1[..|ws1|] == ws1;
    forall k | 0 <= k <= |ws1| + n
      ensures k <= |ws1| ==> (ws1 + ws2)[..k] == ws1[..k]
      ensures k >= |ws1| ==> Apply(d, (ws1 + ws2)[..k]) == Apply(d1, ws2[..k - |ws1|])
    {
      TakeConcat(ws1, ws2, k);
      if k >= |ws1| {
        assert (ws1 + ws2)[..k] == ws1 + ws2[..k - |ws1|];
        ApplyConcat(d, ws1, ws2[..k - |ws1|]);
      }
    }
  }

  // Stopping inside ws1 is stopping inside ws1 + ws2.
  lemma ProgressPrefix(t0: seq<Disk>, t1: seq<Disk>, d: Disk, d1: Disk, ws1: seq<Write>, ws2: seq<Write>, n: nat)
    requires Progress(t0, t1, d, d1, ws1, n)
    ensures Progress(t0, t1, d, d1, ws1 + ws2, n)
  {
    Marks(t0, t1, d, d1, ws1, n);
    forall k | 0 <= k <= n
      ensures (ws1 + ws2)[..k] == ws1[..k]
    {
      TakeConcat(ws1, ws2, k);
    }
  }

  lemma ProgressFirst(l: Layout, t0: seq<Disk>, t1: seq<Disk>, d: Disk, d1: Disk, h: Block, content: Disk,
                      blocks: seq<nat>, n: nat)
    requires Loggable(l, |content|, blocks) && Progress(t0, t1, d, d1, LogPhase(l, h, content, blocks), n)
    ensures Progress(t0, t1, d, d1, CommitWrites(l, h, content, blocks), n)
  {
    ProgressPrefix(t0, t1, d, d1, LogPhase(l, h, content, blocks),
                   InstallPhase(l, PutHead(h, blocks), content, blocks), n);
  }

  lemma ProgressCommit(l: Layout, t0: seq<Disk>, t1: seq<Disk>, t2: seq<Disk>, d: Disk, d1: Disk, d2: Disk, h: Block,
                       content: Disk, blocks: seq<nat>, n: nat, m: nat)
    requires Loggable(l, |content|, blocks) && m == |blocks| + 1 + n
    requires Progress(t0, t1, d, d1, LogPhase(l, h, content, blocks), |blocks| + 1)
    requires Progress(t1, t2, d1, d2, InstallPhase(l, PutHead(h, blocks), content, blocks), n)
    ensures Progress(t0, t2, d, d2, CommitWrites(l, h, content, blocks), m)
  {
    ProgressConcat(t0, t1, t2, d, d1, d2, LogPhase(l, h, content, blocks),
                   InstallPhase(l, PutHead(h, blocks), content, blocks), n);
  }

  // Disk states in order: up to the first n recover to `before`, the later ones to `after`.
  ghost predicate EachRecovers(l: Layout, states: seq<Disk>, before: Disk, after: Disk, n: nat) {
    forall k | 0 <= k < |states| :: RecoversTo(l, states[k], if k < n then before else after)
  }

  lemma CutRecovers(l: Layout, d: Disk, content: Disk, blocks: seq<nat>, k: nat)
    requires HeadOk(l, d) && Head(l, d) == [] && |d| == |content| && Loggable(l, |d|, blocks)
    requires forall b | 0 <= b < |d| && !l.InLog(b) && b !in blocks :: d[b] == content[b]
    requires k < |CommitWrites(l, d[l.start], content, blocks)|
    ensures RecoversTo(l, Apply(d, CommitWrites(l, d[l.start], content, blocks)[..k + 1]),
        if k < |blocks| then d else content)
  {
    CrashAtomicity(l, d, content, blocks, k + 1);
  }

  lemma CommitTrail(l: Layout, t0: seq<Disk>, trail: seq<Disk>, d: Disk, disk: Disk, content: Disk, blocks: seq<nat>,
                    n: nat)
    requires HeadOk(l, d) && Head(l, d) == [] && |d| == |content| && Loggable(l, |d|, blocks)
    requires forall b | 0 <= b < |d| && !l.InLog(b) && b !in blocks :: d[b] == content[b]
    requires Progress(t0, trail, d, disk, CommitWrites(l, d[l.start], content, blocks), n)
    ensures EachRecovers(l, trail[|t0|..], d, content, |blocks|)
  {
    forall k | 0 <= k < n
      ensures RecoversTo(l, trail[|t0|..][k], if k < |blocks| then d else content)
    {
      ProgressAt(t0, trail, d, disk, CommitWrites(l, d[l.start], content, blocks), n, k);
      CutRecovers(l, d, content, blocks, k);
    }
  }

  // After the last write the contents are at home.
  lemma AllAtHome(l: Layout, t0: seq<Disk>, trail: seq<Disk>, d: Disk, disk: Disk, content: Disk, blocks: seq<nat>,
                  n: nat)
    requires l.Fits(d) && Loggable(l, |content|, blocks) && n == 2 * |blocks| + 2
    requires Progress(t0, trail, d, disk, CommitWrites(l, d[l.start], content, blocks), n)
    requires EachRecovers(l, trail[|t0|..], d, content, |blocks|) && HeadOk(l, disk) && Head(l, disk) == []
    ensures SameHome(l, disk, content)
  {
    ProgressAt(t0, trail, d, disk, CommitWrites(l, d[l.start], content, blocks), n, n - 1);
    NothingToRecover(l, disk);
  }

  lemma RecoveryTrail(l: Layout, t0: seq<Disk>, trail: seq<Disk>, d: Disk, disk: Disk, n: nat)
    requires HeadOk(l, d) && Progress(t0, trail, d, disk, RecoverWrites(l, d), n)
    ensures EachRecovers(l, trail[|t0|..], Recovered(l, d), Recovered(l, d), 0)
  {
    forall k | 0 <= k < n
      ensures RecoversTo(l, trail[|t0|..][k], Recovered(l, d))
    {
      ProgressAt(t0, trail, d, disk, RecoverWrites(l, d), n, k);
      RecoveryCutIsHarmless(l, d, k + 1);
    }
  }

  // Once the header is written, what commit has yet to do is what recovery would do.
  lemma HalfWay(l: Layout, d: Disk, h: Block, content: Disk, blocks: seq<nat>)
    requires Committed(l, d, content, blocks) && d[l.start] == PutHead(h, blocks)
    ensures RecoverWrites(l, d) == InstallPhase(l, PutHead(h, blocks), content, blocks)
  {
    assert Installs(l, d, blocks) == HomeCopies(l, content, blocks);
  }

  lemma HeaderWritten(l: Layout, d: Disk, d1: Disk, h: Block, content: Disk, blocks: seq<nat>)
    requires l.Fits(d) && |d| == |content| && Loggable(l, |d|, blocks) && h == d[l.start]
    requires d1 == Apply(d, LogPhase(l, h, content, blocks)[..|blocks| + 1])
    ensures HeadOk(l, d1) && Head(l, d1) == blocks
    ensures RecoverWrites(l, d1) == InstallPhase(l, PutHead(h, blocks), content, blocks)
  {
    assert LogPhase(l, h, content, blocks)[..|blocks| + 1] == LogPhase(l, h, content, blocks);
    LogPhaseCommits(l, d, content, blocks);
    LogPhaseHead(l, d, content, blocks);
    HalfWay(l, d1, h, content, blocks);
  }

  ghost function Members(block: seq<nat>): set<nat> {
    set b | b in block
  }

  lemma OneMoreOf(block: seq<nat>, n: nat)
    requires n < |block|
    ensures Members(block[..n + 1]) == Members(block[..n]) + {block[n]}
  {
    assert block[..n + 1] == block[..n] + [block[n]];
  }

  // What the cache shows at one moment.
  datatype Snapshot = Snapshot(
    trail: seq<Disk>, disk: Disk, content: Disk, locked: set<nat>, dirty: set<nat>, refs: seq<int>)

  // From s to s', write_log has copied `tail` blocks to the log.
  ghost predicate Copied(l: Layout, block: seq<nat>, s: Snapshot, s': Snapshot, tail: nat)
    requires l.Fits(s.disk) && |s.content| == |s.disk| && Loggable(l, |s.disk|, block) && tail <= |block|
  {
    && s'.locked == s.locked && s'.dirty == s.dirty && s'.refs == s.refs
    && SameHome(l, s'.content, s.content) && s'.content[l.start] == s.content[l.start]
    && Progress(s.trail, s'.trail, s.disk, s'.disk, LogCopies(l, s.content, block), tail)
  }

  lemma CopiedNothing(l: Layout, block: seq<nat>, s: Snapshot)
    requires l.Fits(s.disk) && |s.content| == |s.disk| && Loggable(l, |s.disk|, block)
    ensures Copied(l, block, s, s, 0)
  {
    assert LogCopies(l, s.content, block)[..0] == [];
  }

  lemma CopiedNext(l: Layout, block: seq<nat>, s: Snapshot, s1: Snapshot, s2: Snapshot, tail: nat)
    requires l.Fits(s.disk) && |s.content| == |s.disk| && Loggable(l, |s.disk|, block) && tail < |block|
    requires Copied(l, block, s, s1, tail) && |s1.content| == |s1.disk| == |s.disk|
    requires s2.locked == s1.locked && s2.dirty == s1.dirty && s2.refs == s1.refs
    requires s2.content == s1.content[l.Slot(tail) := s1.content[block[tail]]]
    requires s2.disk == s1.disk[l.Slot(tail) := s1.content[block[tail]]] && s2.trail == s1.trail + [s2.disk]
    ensures Copied(l, block, s, s2, tail + 1)
  {
    assert l.InLog(l.Slot(tail));
    ProgressOne(s.trail, s1.trail, s.disk, s1.disk, LogCopies(l, s.content, block), tail, s2.disk);
  }

  // From s to s', install_trans has installed `tail` blocks.
  ghost predicate Installed(l: Layout, block: seq<nat>, s: Snapshot, s': Snapshot, tail: nat)
    requires l.Fits(s.disk) && Loggable(l, |s.disk|, block) && tail <= |block|
  {
    && s'.locked == s.locked && s'.dirty == s.dirty - Members(block[..tail]) && s'.refs == s.refs
    && s'.content == Apply(s.content, Installs(l, s.disk, block)[..tail])
    && Progress(s.trail, s'.trail, s.disk, s'.disk, Installs(l, s.disk, block), tail)
  }

  lemma InstalledNothing(l: Layout, block: seq<nat>, s: Snapshot)
    requires l.Fits(s.disk) && Loggable(l, |s.disk|, block)
    ensures Installed(l, block, s, s, 0)
  {
    assert block[..0] == [] && Installs(l, s.disk, block)[..0] == [];
  }

  // The log block that comes next is still as it was.
  lemma SlotUnchanged(l: Layout, block: seq<nat>, s: Snapshot, s': Snapshot, tail: nat)
    requires l.Fits(s.disk) && Loggable(l, |s.disk|, block) && tail < |block| && Installed(l, block, s, s', tail)
    ensures |s'.disk| == |s.disk| && s'.disk[l.Slot(tail)] == s.disk[l.Slot(tail)]
  {
    Untouched(s.disk, Installs(l, s.disk, block)[..tail], l.Slot(tail));
  }

  lemma InstalledNext(l: Layout, block: seq<nat>, s: Snapshot, s1: Snapshot, s2: Snapshot, tail: nat)
    requires l.Fits(s.disk) && Loggable(l, |s.disk|, block) && tail < |block| && Installed(l, block, s, s1, tail)
    requires |s.content| == |s.disk| == |s1.content| == |s1.disk| && s1.disk[l.Slot(tail)] == s.disk[l.Slot(tail)]
    requires s2.locked == s1.locked && s2.dirty == s1.dirty - {block[tail]} && s2.refs == s1.refs
    requires s2.content == s1.content[block[tail] := s1.disk[l.Slot(tail)]]
    requires s2.disk == s1.disk[block[tail] := s1.disk[l.Slot(tail)]] && s2.trail == s1.trail + [s2.disk]
    ensures Installed(l, block, s, s2, tail + 1)
  {
    var ws := Installs(l, s.disk, block);
    ProgressOne(s.trail, s1.trail, s.disk, s1.disk, ws, tail, s2.disk);
    ApplyNext(s.content, ws, tail);
    OneMoreOf(block, tail);
  }

  // With these blocks pinned and no references held, a log block and block b can be read.
  ghost predicate Roomy(dirty: set<nat>, b: nat) {
    |dirty| + 1 < NBUF || (|dirty| < NBUF && b in dirty)
  }

  lemma NoneLeft(dirty: set<nat>, block: seq<nat>)
    requires dirty <= Members(block)
    ensures dirty - Members(block) == {} && Members([]) == {}
    ensures |dirty| < NBUF && block != [] && (dirty == {} || block[0] in dirty) ==> Roomy(dirty, block[0])
    ensures block == [] ==> dirty == {}
  {
  }

  lemma Roomier(dirty: set<nat>, b: nat)
    requires Roomy(dirty, b)
    ensures |dirty - {b}| + 1 < NBUF
  {
    if b in dirty {
      assert dirty == (dirty - {b}) + {b};
    } else {
      assert dirty - {b} == dirty;
    }
  }

  class Log {
    const cache: BufferCache
    const l: Layout
    var block: seq<nat>   // log.lh.block[0..log.lh.n]
    var outstanding: nat
    var committing: bool

    constructor (cache: BufferCache, l: Layout)
      ensures this.cache == cache && this.l == l && block == [] && outstanding == 0 && !committing
    {
      this.cache, this.l := cache, l;
      block, outstanding, committing := [], 0, false;
    }

    // bread of two blocks in a row.
    method ReadTwo(a: nat, b: nat) returns (ok: bool, i: nat, j: nat)
      requires cache.Valid() && a != b && a !in cache.Locked() && b !in cache.Locked()
      modifies cache
      ensures cache.disk == old(cache.disk) && cache.trail == old(cache.trail) && cache.content == old(cache.content)
      ensures ok <==> CanReadBoth(old(cache.bufs), a, b) && a < |cache.disk| && b < |cache.disk|
      ensures ok ==> cache.Valid() && cache.Handle(i, a) && cache.Handle(j, b) && i != j
      ensures ok ==> cache.bufs[i].data == cache.content[a] && cache.bufs[j].data == cache.content[b]
      ensures ok ==> cache.Locked() == old(cache.Locked()) + {a, b} && cache.Dirty() == old(cache.Dirty())
      ensures ok ==> i < |old(cache.Refs())| && j < |old(cache.Refs())|
      ensures ok ==> cache.Refs() == Held(Held(old(cache.Refs()), i, 1), j, 1)
    {
      i, j := 0, 0;
      ghost var bufs, index := cache.bufs, cache.index;
      var r, waits := cache.BRead(a);
      if r.None? { return false, 0, 0; }
      i := r.value;
      ReadBothIff(bufs, cache.disk, cache.content, index, cache.bufs, i, a, b);
      r, waits := cache.BRead(b);
      if r.None? { return false, 0, 0; }
      return true, i, r.value;
    }

    // Store new data in a locked buffer and bwrite it.
    method Rewrite(t: nat, dst: nat, d: Block)
      requires cache.Valid() && cache.Handle(t, dst)
      modifies cache
      ensures cache.Valid() && dst < |cache.disk| == |old(cache.content)|
      ensures cache.content == old(cache.content)[dst := d]
      ensures cache.disk == old(cache.disk)[dst := d] && cache.trail == old(cache.trail) + [cache.disk]
      ensures cache.bufs == old(cache.bufs)[t := old(cache.bufs[t]).(data := d, dirty := false)]
      ensures cache.Locked() == old(cache.Locked()) && cache.Dirty() == old(cache.Dirty()) - {dst}
      ensures cache.Refs() == old(cache.Refs())
    {
      cache.Store(t, dst, d);
      var ok := cache.BWrite(t);
    }

    method ReleaseTwo(s: nat, src: nat, t: nat, dst: nat)
      requires cache.Valid() && src != dst && cache.Handle(s, src) && cache.Handle(t, dst)
      requires src < |cache.disk| && dst < |cache.disk|
      requires src in cache.Dirty() || cache.content[src] == cache.disk[src]
      requires cache.content[dst] == cache.disk[dst]
      modifies cache
      ensures cache.Valid()
      ensures cache.disk == old(cache.disk) && cache.trail == old(cache.trail) && cache.content == old(cache.content)
      ensures cache.Locked() == old(cache.Locked()) - {src, dst} && cache.Dirty() == old(cache.Dirty())
      ensures cache.Refs() == Held(Held(old(cache.Refs()), s, -1), t, -1)
    {
      cache.Reflag(cache.bufs, s, src, cache.bufs[s]);
      var ok := cache.BRelse(s);
      ok := cache.BRelse(t);
    }

    // memmove(t->data, s->data), bwrite(t), brelse(s), brelse(t).
    method Transfer(s: nat, src: nat, t: nat, dst: nat)
      requires cache.Valid() && src != dst && cache.Handle(s, src) && cache.Handle(t, dst)
      requires src < |cache.disk| && dst < |cache.disk| && cache.bufs[s].data == cache.content[src]
      requires src in cache.Dirty() || cache.content[src] == cache.disk[src]
      modifies cache
      ensures cache.Valid()
      ensures cache.content == old(cache.content[dst := cache.content[src]])
      ensures cache.disk == old(cache.disk[dst := cache.content[src]]) && cache.trail == old(cache.trail) + [cache.disk]
      ensures cache.Locked() == old(cache.Locked()) - {src, dst} && cache.Dirty() == old(cache.Dirty()) - {dst}
      ensures s < |old(cache.Refs())| && t < |old(cache.Refs())|
      ensures cache.Refs() == Held(Held(old(cache.Refs()), s, -1), t, -1)
    {
      Rewrite(t, dst, cache.bufs[s].data);
      ReleaseTwo(s, src, t, dst);
    }

    // One round of write_log (log.c:180-186): the log block is read first.
    method LogOne(src: nat, dst: nat) returns (ok: bool)
      requires cache.Valid() && src != dst && src !in cache.Locked() && dst !in cache.Locked()
      requires src < |cache.disk| && dst < |cache.disk| && src in cache.Dirty() && dst !in cache.Dirty()
      modifies cache
      ensures ok <==> CanReadBoth(old(cache.bufs), dst, src)
      ensures ok ==> cache.Refs() == old(cache.Refs())
      ensures ok ==> cache.Valid() && cache.Locked() == old(cache.Locked()) && cache.Dirty() == old(cache.Dirty())
      ensures ok ==> cache.content == old(cache.content[dst := cache.content[src]])
      ensures ok ==> cache.disk == old(cache.disk[dst := cache.content[src]])
      ensures ok ==> cache.trail == old(cache.trail) + [cache.disk]
      ensures !ok ==> cache.disk == old(cache.disk) && cache.trail == old(cache.trail)
    {
      var t, s;
      ok, t, s := ReadTwo(dst, src);
      if ok { Transfer(s, src, t, dst); }
    }

    lemma RoomToInstall(src: nat, dst: nat)
      requires cache.Valid() && src != dst && src !in cache.Dirty()
      ensures cache.Refs() == NoRef() ==> (CanReadBoth(cache.bufs, src, dst) <==> Roomy(cache.Dirty(), dst))
      ensures Roomy(cache.Dirty(), dst) ==> |cache.Dirty() - {dst}| + 1 < NBUF
    {
      NoRefsIff(cache.bufs);
      if NoRefs(cache.bufs) { TwoReadIff(cache.bufs, cache.disk, cache.content, cache.index, src, dst); }
      if Roomy(cache.Dirty(), dst) { Roomier(cache.Dirty(), dst); }
    }

    // One round of install_trans (log.c:74-81): the log block is read first, and is the source.
    method InstallOne(src: nat, dst: nat) returns (ok: bool)
      requires cache.Valid() && src != dst && src !in cache.Locked() && dst !in cache.Locked()
      requires src < |cache.disk| && dst < |cache.disk| && src !in cache.Dirty()
      modifies cache
      ensures ok <==> CanReadBoth(old(cache.bufs), src, dst)
      ensures ok ==> cache.Refs() == old(cache.Refs())
      ensures ok ==> cache.Valid() && cache.Locked() == old(cache.Locked())
      ensures ok ==> cache.Dirty() == old(cache.Dirty()) - {dst}
      ensures ok ==> cache.content == old(cache.content[dst := cache.disk[src]])
      ensures ok ==> cache.disk == old(cache.disk[dst := cache.disk[src]])
      ensures ok ==> cache.trail == old(cache.trail) + [cache.disk]
      ensures !ok ==> cache.disk == old(cache.disk) && cache.trail == old(cache.trail)
    {
      cache.Settled(src);
      var s, t;
      ok, s, t := ReadTwo(src, dst);
      if ok { Transfer(s, src, t, dst); }
    }

    // With no references held, a log block and its pinned home block can be read unless all buffers are pinned.
    lemma RoomToLog(dst: nat, src: nat)
      requires cache.Valid() && dst != src && src in cache.Dirty() && dst !in cache.Dirty()
      ensures cache.Refs() == NoRef() ==> (CanReadBoth(cache.bufs, dst, src) <==> |cache.Dirty()| < NBUF)
    {
      NoRefsIff(cache.bufs);
      if !NoRefs(cache.bufs) { return; }
      PinnedIs(cache.bufs, cache.disk, cache.content, cache.index);
      if |cache.Dirty()| < NBUF {
        ReadBoth(cache.bufs, cache.disk, cache.content, cache.index, dst, src);
      }
      ReadIff(cache.bufs, cache.disk, cache.content, cache.index, dst);
    }

    ghost function Now(): Snapshot
      reads cache
    {
      Snapshot(cache.trail, cache.disk, cache.content, cache.Locked(), cache.Dirty(), cache.Refs())
    }

    // write_log, started at s, has copied `tail` blocks.
    ghost predicate Copying(s: Snapshot, tail: nat)
      reads this, cache
    {
      && cache.Valid() && l.Fits(s.disk) && |s.content| == |s.disk| && Loggable(l, |s.disk|, block) && tail <= |block|
      && Copied(l, block, s, Now(), tail)
    }

    method LogNext(tail: nat, ghost s: Snapshot) returns (ok: bool)
      requires Copying(s, tail) && tail < |block|
      requires forall b | b in s.locked :: !l.InLog(b) && b !in block
      requires (forall b | b in block :: b in s.dirty) && forall b | b in s.dirty :: !l.InLog(b)
      modifies cache
      ensures ok ==> Copying(s, tail + 1)
      ensures !ok ==> cache.disk == old(cache.disk) && cache.trail == old(cache.trail)
      ensures s.refs == NoRef() ==> (ok <==> |s.dirty| < NBUF)
    {
      ghost var was := Now();
      assert l.InLog(l.Slot(tail)) && block[tail] in block;
      RoomToLog(l.Slot(tail), block[tail]);
      ok := LogOne(block[tail], l.Slot(tail));
      if ok { CopiedNext(l, block, s, was, Now(), tail); }
    }

    // write_log.  On false the machine has stopped after n of the writes.
    method WriteLog() returns (ok: bool, ghost n: nat)
      requires cache.Valid() && l.Fits(cache.disk) && Loggable(l, |cache.disk|, block)
      requires forall b | b in cache.Locked() :: !l.InLog(b) && b !in block
      requires forall b | b in block :: b in cache.Dirty()
      requires forall b | b in cache.Dirty() :: !l.InLog(b)
      modifies cache
      ensures ok ==> cache.Valid() && cache.Locked() == old(cache.Locked()) && cache.Dirty() == old(cache.Dirty())
      ensures ok ==> SameHome(l, cache.content, old(cache.content))
      ensures ok ==> cache.content[l.start] == old(cache.content)[l.start]
      ensures Progress(old(cache.trail), cache.trail, old(cache.disk), cache.disk,
          LogCopies(l, old(cache.content), block), n)
      ensures ok ==> n == |block|
      ensures ok ==> cache.Refs() == old(cache.Refs())
      ensures old(cache.Refs()) == NoRef() ==> (ok <==> block == [] || |old(cache.Dirty())| < NBUF)
      ensures old(cache.Refs()) == NoRef() && !ok ==> n == 0
    {
      ghost var s := Now();
      CopiedNothing(l, block, s);
      var tail := 0;
      while tail < |block|
        invariant 0 <= tail <= |block| && Copying(s, tail)
        invariant s.refs == NoRef() && tail > 0 ==> |s.dirty| < NBUF
      {
        ok := LogNext(tail, s);
        if !ok { return false, tail; }
        tail := tail + 1;
      }
      return true, tail;
    }

    // write_head's loop: n and the block numbers go over the old header.
    method FillHead(h: Block) returns (r: Block)
      requires |block| <= LOGSIZE
      ensures r == PutHead(h, block)
    {
      r := h[0 := |block|];
      var i := 0;
      while i < |block|
        invariant 0 <= i <= |block|
        invariant r == [|block|] + block[..i] + h[1 + i..]
      {
        r := r[1 + i := block[i]];
        i := i + 1;
      }
    }

    // write_head, given that block l.start is not pinned.
    method WriteHead() returns (ok: bool)
      requires cache.Valid() && l.Fits(cache.disk) && |block| <= LOGSIZE
      requires l.start !in cache.Locked() && l.start !in cache.Dirty()
      modifies cache
      ensures ok <==> CanRead(old(cache.bufs), l.start)
      ensures ok ==> cache.Refs() == old(cache.Refs())
      ensures !ok ==> cache.disk == old(cache.disk) && cache.trail == old(cache.trail)
      ensures ok ==> cache.Valid() && cache.Locked() == old(cache.Locked()) && cache.Dirty() == old(cache.Dirty())
      ensures ok ==> cache.content == old(cache.content)[l.start := PutHead(old(cache.disk)[l.start], block)]
      ensures ok ==> cache.disk == old(cache.disk)[l.start := PutHead(old(cache.disk)[l.start], block)]
      ensures ok ==> cache.trail == old(cache.trail) + [cache.disk]
    {
      cache.Settled(l.start);
      var r, waits := cache.BRead(l.start);
      if r.None? { return false; }
      var h := FillHead(cache.bufs[r.value].data);
      Rewrite(r.value, l.start, h);
      ok := cache.BRelse(r.value);
      return true;
    }

    // read_head's loop.
    method HeadBlocks(h: Block) returns (blocks: seq<nat>)
      requires 0 <= h[0] <= LOGSIZE && forall t | 1 <= t <= h[0] :: h[t] >= 0
      ensures blocks == h[1..1 + h[0]]
    {
      blocks := [];
      var i := 0;
      while i < h[0]
        invariant 0 <= i <= h[0] && blocks == h[1..1 + i]
      {
        blocks := blocks + [h[1 + i]];
        i := i + 1;
      }
    }

    // bread, use the data, brelse.
    method Peek(b: nat) returns (r: Option<Block>)
      requires cache.Valid() && b < |cache.disk| && b !in cache.Locked() && b !in cache.Dirty()
      modifies cache
      ensures r.Some? <==> CanRead(old(cache.bufs), b)
      ensures r.Some? ==> cache.Refs() == old(cache.Refs())
      ensures cache.disk == old(cache.disk) && cache.trail == old(cache.trail) && cache.content == old(cache.content)
      ensures r.Some? ==> cache.Valid() && cache.Locked() == old(cache.Locked()) && cache.Dirty() == old(cache.Dirty())
      ensures r.Some? ==> r.value == cache.disk[b]
    {
      cache.Settled(b);
      var i, waits := cache.BRead(b);
      if i.None? { return None; }
      r := Some(cache.bufs[i.value].data);
      var released := cache.BRelse(i.value);
    }

    // read_head.
    method ReadHead() returns (ok: bool)
      requires cache.Valid() && HeadOk(l, cache.disk)
      requires l.start !in cache.Locked() && l.start !in cache.Dirty()
      modifies cache, this`block
      ensures ok <==> CanRead(old(cache.bufs), l.start)
      ensures ok ==> cache.Refs() == old(cache.Refs())
      ensures cache.disk == old(cache.disk) && cache.trail == old(cache.trail) && cache.content == old(cache.content)
      ensures ok ==> cache.Valid() && cache.Locked() == old(cache.Locked()) && cache.Dirty() == old(cache.Dirty())
      ensures ok ==> block == Head(l, cache.disk)
    {
      var h := Peek(l.start);
      if h.None? { return false; }
      block := HeadBlocks(h.value);
      return true;
    }

    // install_trans, started at s, has installed `tail` blocks.
    ghost predicate Installing(s: Snapshot, tail: nat)
      reads this, cache
    {
      && cache.Valid() && l.Fits(s.disk) && Loggable(l, |s.disk|, block) && tail <= |block|
      && Installed(l, block, s, Now(), tail)
    }

    method InstallNext(tail: nat, ghost s: Snapshot) returns (ok: bool)
      requires Installing(s, tail) && tail < |block| && |s.content| == |s.disk|
      requires forall b | b in s.locked :: !l.InLog(b) && b !in block
      requires forall b | b in s.dirty :: !l.InLog(b)
      modifies cache
      ensures ok ==> Installing(s, tail + 1)
      ensures !ok ==> cache.disk == old(cache.disk) && cache.trail == old(cache.trail)
      ensures s.refs == NoRef() ==> (ok <==> old(Roomy(cache.Dirty(), block[tail])))
      ensures s.refs == NoRef() && ok ==> |cache.Dirty()| + 1 < NBUF
    {
      ghost var was := Now();
      assert l.InLog(l.Slot(tail)) && block[tail] in block;
      SlotUnchanged(l, block, s, was, tail);
      RoomToInstall(l.Slot(tail), block[tail]);
      ok := InstallOne(l.Slot(tail), block[tail]);
      if ok { InstalledNext(l, block, s, was, Now(), tail); }
    }

    // install_trans.  On false the machine has stopped after n of the writes.
    method InstallTrans() returns (ok: bool, ghost n: nat)
      requires cache.Valid() && l.Fits(cache.disk) && Loggable(l, |cache.disk|, block)
      requires forall b | b in cache.Locked() :: !l.InLog(b) && b !in block
      requires forall b | b in cache.Dirty() :: !l.InLog(b)
      modifies cache
      ensures Progress(old(cache.trail), cache.trail, old(cache.disk), cache.disk,
          Installs(l, old(cache.disk), block), n)
      ensures ok ==> n == |block|
      ensures ok ==> cache.Valid() && cache.Locked() == old(cache.Locked())
      ensures ok ==> cache.Dirty() == old(cache.Dirty()) - Members(block)
      ensures ok ==> cache.content == Apply(old(cache.content), Installs(l, old(cache.disk), block))
      ensures ok ==> cache.Refs() == old(cache.Refs())
      ensures old(cache.Refs()) == NoRef() ==> (ok <==> block == [] || old(Roomy(cache.Dirty(), block[0])))
      ensures old(cache.Refs()) == NoRef() && !ok ==> n == 0
    {
      ghost var s := Now();
      InstalledNothing(l, block, s);
      var tail := 0;
      while tail < |block|
        invariant 0 <= tail <= |block| && Installing(s, tail)
        invariant tail == 0 ==> cache.Dirty() == old(cache.Dirty())
        invariant s.refs == NoRef() && 0 < tail < |block| ==> Roomy(cache.Dirty(), block[tail])
        invariant s.refs == NoRef() && 0 < tail ==> old(Roomy(cache.Dirty(), block[0]))
      {
        ok := InstallNext(tail, s);
        if !ok { return false, tail; }
        tail := tail + 1;
      }
      assert tail == |block|;
      assert block[..tail] == block && Installs(l, s.disk, block)[..tail] == Installs(l, s.disk, block);
      return true, tail;
    }

    // In-memory state that end_op hands to commit: the logged blocks are pinned in the cache,
    // the log area is clean, and nobody holds a buffer that commit needs.
    ghost predicate ReadyToCommit()
      reads this, cache
    {
      && cache.Valid() && HeadOk(l, cache.disk) && Head(l, cache.disk) == [] && Loggable(l, |cache.disk|, block)
      && (forall b | b in cache.Locked() :: !l.InLog(b) && b !in block)
      && cache.Dirty() == Members(block)
    }

    lemma OnlyLoggedDiffer()
      requires ReadyToCommit()
      requires forall b | 0 <= b < |cache.disk| && b in cache.Locked() :: cache.content[b] == cache.disk[b]
      ensures forall b | 0 <= b < |cache.disk| && !l.InLog(b) && b !in block :: cache.disk[b] == cache.content[b]
    {
      forall b | 0 <= b < |cache.disk| && !l.InLog(b) && b !in block
        ensures cache.disk[b] == cache.content[b]
      {
        if b !in cache.Locked() { cache.Settled(b); }
      }
    }

    /** commit: whichever disk state the machine stops in, recovery gives the old file system
        until the header write and the new one from then on; a commit that completes leaves
        an empty log, the new contents at home, and nothing pinned. */
    method Commit() returns (ok: bool, ghost n: nat)
      requires ReadyToCommit()
      requires forall b | 0 <= b < |cache.disk| && b in cache.Locked() :: cache.content[b] == cache.disk[b]
      modifies cache, this`block
      ensures old(block) == [] ==> ok && unchanged(this) && unchanged(cache)
      ensures old(block) != [] ==>
        Progress(old(cache.trail), cache.trail, old(cache.disk), cache.disk,
                 CommitWrites(l, old(cache.disk)[l.start], old(cache.content), old(block)), n)
      ensures old(block) != [] ==>
        EachRecovers(l, cache.trail[|old(cache.trail)|..], old(cache.disk), old(cache.content), |old(block)|)
      ensures ok && old(block) != [] ==> n == 2 * |old(block)| + 2 && block == []
      ensures ok ==> SameHome(l, cache.disk, old(cache.content))
      ensures ok ==> ReadyToCommit() && cache.Locked() == old(cache.Locked()) && cache.Refs() == old(cache.Refs())
      ensures old(cache.Refs()) == NoRef() ==> (ok <==> |Members(old(block))| < NBUF)
      ensures old(cache.Refs()) == NoRef() && !ok ==> n == 0 && cache.disk == old(cache.disk)
    {
      OnlyLoggedDiffer();
      if |block| == 0 { return true, 0; }
      ok, n := CommitBody();
      CommitTrail(l, old(cache.trail), cache.trail, old(cache.disk), cache.disk, old(cache.content), old(block), n);
      if ok {
        AllAtHome(l, old(cache.trail), cache.trail, old(cache.disk), cache.disk, old(cache.content), old(block), n);
      }
    }

    method CommitBody() returns (ok: bool, ghost n: nat)
      requires ReadyToCommit()
      modifies cache, this`block
      ensures Progress(old(cache.trail), cache.trail, old(cache.disk), cache.disk,
                       CommitWrites(l, old(cache.disk)[l.start], old(cache.content), old(block)), n)
      ensures ok ==> n == 2 * |old(block)| + 2 && block == [] && cache.Refs() == old(cache.Refs())
      ensures old(cache.Refs()) == NoRef() ==> (ok <==> |old(cache.Dirty())| < NBUF) && (!ok ==> n == 0)
      ensures ok ==> ReadyToCommit() && cache.Locked() == old(cache.Locked())
    {
      ghost var t0, d0, content, blocks := cache.trail, cache.disk, cache.content, block;
      ghost var h := d0[l.start];
      ok, n := FirstHalf();
      ProgressFirst(l, t0, cache.trail, d0, cache.disk, h, content, blocks, n);
      if !ok { return; }
      ghost var t1, d1, m := cache.trail, cache.disk, 0;
      HeaderWritten(l, d0, d1, h, content, blocks);
      ok, m := SecondHalf();
      n := n + m;
      ProgressCommit(l, t0, t1, cache.trail, d0, d1, cache.disk, h, content, blocks, m, n);
    }

    // write_log and write_head.
    method FirstHalf() returns (ok: bool, ghost n: nat)
      requires ReadyToCommit()
      modifies cache
      ensures Progress(old(cache.trail), cache.trail, old(cache.disk), cache.disk,
                       LogPhase(l, old(cache.disk)[l.start], old(cache.content), block), n)
      ensures ok ==> n == |block| + 1 && cache.Refs() == old(cache.Refs())
      ensures old(cache.Refs()) == NoRef() ==> (ok <==> |old(cache.Dirty())| < NBUF) && (!ok ==> n == 0)
      ensures ok ==> cache.Valid() && cache.Locked() == old(cache.Locked()) && cache.Dirty() == old(cache.Dirty())
      ensures ok ==> SameHome(l, cache.content, old(cache.content))
    {
      ghost var t0, d0, content := cache.trail, cache.disk, cache.content;
      ghost var ws, w := LogCopies(l, content, block), Write(l.start, PutHead(d0[l.start], block));
      ok, n := WriteLog();
      ProgressPrefix(t0, cache.trail, d0, cache.disk, ws, [w], n);
      if !ok { return; }
      ghost var t1, d1 := cache.trail, cache.disk;
      assert ws[..n] == ws;
      Untouched(d0, ws, l.start);
      ReadHeader();
      ok := WriteHead();
      if !ok { return; }
      ProgressOne(t0, t1, d0, d1, ws + [w], n, cache.disk);
      n := n + 1;
    }

    lemma ReadHeader()
      requires cache.Valid() && l.start !in cache.Dirty()
      ensures cache.Refs() == NoRef() ==> (CanRead(cache.bufs, l.start) <==> |cache.Dirty()| < NBUF)
    {
      NoRefsIff(cache.bufs);
      if NoRefs(cache.bufs) { ReadIff(cache.bufs, cache.disk, cache.content, cache.index, l.start); }
    }

    // log.lh.n = 0 and write_head, after the writes ws.
    method ClearHead(ghost t0: seq<Disk>, ghost d0: Disk, ghost ws: seq<Write>) returns (ok: bool)
      requires cache.Valid() && l.Fits(d0) && cache.Dirty() == {} && forall b | b in cache.Locked() :: !l.InLog(b)
      requires Progress(t0, cache.trail, d0, cache.disk, ws, |ws|) && cache.disk[l.start] == d0[l.start]
      modifies cache, this`block
      ensures Progress(t0, cache.trail, d0, cache.disk, ws + [Write(l.start, PutHead(d0[l.start], []))],
                       if ok then |ws| + 1 else |ws|)
      ensures ok ==> block == [] && ReadyToCommit() && cache.Locked() == old(cache.Locked())
      ensures ok ==> cache.Refs() == old(cache.Refs())
      ensures old(cache.Refs()) == NoRef() ==> ok
    {
      ghost var w, t1, d1 := Write(l.start, PutHead(d0[l.start], [])), cache.trail, cache.disk;
      ProgressPrefix(t0, t1, d0, d1, ws, [w], |ws|);
      block := [];
      ReadHeader();
      ok := WriteHead();
      if !ok { return; }
      ProgressOne(t0, t1, d0, d1, ws + [w], |ws|, cache.disk);
      EmptyHead(l, cache.disk, d0[l.start]);
    }

    // install_trans, and then the above: the tail of both commit and recovery.
    method SecondHalf() returns (ok: bool, ghost n: nat)
      requires cache.Valid() && HeadOk(l, cache.disk) && Head(l, cache.disk) == block
      requires forall b | b in cache.Locked() :: !l.InLog(b) && b !in block
      requires cache.Dirty() <= Members(block)
      modifies cache, this`block
      ensures Progress(old(cache.trail), cache.trail, old(cache.disk), cache.disk, RecoverWrites(l, old(cache.disk)), n)
      ensures ok ==> n == |old(block)| + 1 && block == [] && cache.Refs() == old(cache.Refs())
      ensures old(cache.Refs() == NoRef() && |cache.Dirty()| < NBUF
                  && (cache.Dirty() == {} || block[0] in cache.Dirty())) ==>
                ok
      ensures ok ==> ReadyToCommit() && cache.Locked() == old(cache.Locked())
    {
      ghost var t0, d0 := cache.trail, cache.disk;
      ghost var ws, w := Installs(l, d0, block), Write(l.start, PutHead(d0[l.start], []));
      NoneLeft(cache.Dirty(), block);
      ok, n := InstallTrans();
      if !ok {
        ProgressPrefix(t0, cache.trail, d0, cache.disk, ws, [w], n);
        return;
      }
      assert ws[..n] == ws;
      Untouched(d0, ws, l.start);
      ok := ClearHead(t0, d0, ws);
      n := if ok then n + 1 else n;
    }

    /** recover_from_log, run at boot: every disk state it goes through recovers to the same
        file system, and running it to the end puts that file system in place. */
    method RecoverFromLog() returns (ok: bool, ghost n: nat)
      requires cache.Valid() && HeadOk(l, cache.disk) && cache.Locked() == cache.Dirty() == {}
      modifies cache, this`block
      ensures Progress(old(cache.trail), cache.trail, old(cache.disk), cache.disk, RecoverWrites(l, old(cache.disk)), n)
      ensures EachRecovers(l, cache.trail[|old(cache.trail)|..], Recovered(l, old(cache.disk)),
          Recovered(l, old(cache.disk)), 0)
      ensures old(cache.Refs()) == NoRef() ==> ok
      ensures ok ==> n == |RecoverWrites(l, old(cache.disk))| && cache.Refs() == old(cache.Refs())
      ensures ok ==> block == [] && ReadyToCommit() && cache.Locked() == {}
      ensures ok ==> cache.disk == Recovered(l, old(cache.disk))
    {
      ghost var t0, d0 := cache.trail, cache.disk;
      ghost var rw := RecoverWrites(l, d0);
      n := 0;
      ReadHeader();
      ok := ReadHead();
      if ok {
        ok, n := SecondHalf();
      }
      RecoveryTrail(l, t0, cache.trail, d0, cache.disk, n);
      assert rw[..|rw|] == rw;
    }

    // One pass of begin_op's loop; false means the caller goes to sleep and tries again.
    method BeginOp() returns (entered: bool)
      modifies this`outstanding
      ensures entered <==> !committing && |block| + MAXOPBLOCKS * old(outstanding) + MAXOPBLOCKS <= LOGSIZE
      ensures outstanding == old(outstanding) + if entered then 1 else 0
    {
      if committing {
        return false;
      } else if |block| + (outstanding + 1) * MAXOPBLOCKS > LOGSIZE {
        return false;
      }
      outstanding := outstanding + 1;
      return true;
    }

    // end_op up to the release of log.lock; true means the caller goes on to commit().
    method EndOp() returns (panic: bool, doCommit: bool)
      requires outstanding > 0
      modifies this`outstanding, this`committing
      ensures panic <==> old(committing)
      ensures outstanding == old(outstanding) - 1
      ensures !panic ==> (doCommit <==> outstanding == 0) && committing == doCommit
    {
      outstanding := outstanding - 1;
      if committing { return true, false; }
      if outstanding == 0 {
        committing := true;
        return false, true;
      }
      return false, false;
    }

    /** log_write on a locked buffer: the block is recorded once and its buffer pinned. */
    method LogWrite(i: nat, b: nat) returns (ok: bool)
      requires cache.Valid() && cache.Handle(i, b)
      modifies cache`bufs, this`block
      ensures ok <==> |old(block)| < LOGSIZE && |old(block)| < l.size - 1 && outstanding >= 1
      ensures !ok ==> unchanged(this) && unchanged(cache)
      ensures ok ==> block == Absorb(old(block), b)
      ensures ok ==> old(block) <= block && |block| == |old(block)| + if b in old(block) then 0 else 1
      ensures ok && b !in old(block) ==> block[|old(block)|] == b
      ensures ok ==> cache.Valid() && cache.Handle(i, b)
      ensures ok ==> cache.Dirty() == old(cache.Dirty()) + {b} && cache.Locked() == old(cache.Locked())
      ensures ok ==> cache.Refs() == old(cache.Refs())
    {
      if |block| >= LOGSIZE || |block| >= l.size - 1 { return false; }
      if outstanding < 1 { return false; }
      var k := 0;
      while k < |block| && block[k] != b
        invariant 0 <= k <= |block| && b !in block[..k]
      {
        k := k + 1;
      }
      if k == |block| {
        block := block + [b];
      } else {
        block := block[k := b];
      }
      cache.Pin(i, b);
      return true;
    }
  }
}
