/** Whole runs of the log: any number of file-system operations, interleaved, with group
    commit and with crashes at any moment (log.c:125-231).

    A run is a list of actions.  One action is one critical section of log.c, one block
    write of a commit, or a crash followed by any number of interrupted recoveries and one
    complete recovery.  bread, modify and log_write of a block are one action. */
module GroupCommit {
  import opened Bio
  import opened LogSpec

  datatype Event = Event(op: nat, b: nat, d: Block)

  datatype Action =
    | Begin
    | LogWrite(op: nat, b: nat, d: Block)
    | End(op: nat)
    | CommitWrite
    | CommitDone
    | Crash(cuts: seq<nat>)

  datatype Sys = Sys(
    disk: Disk,
    content: Disk,              // the blocks as seen through the buffer cache
    block: seq<nat>,            // log.lh
    open: map<nat, nat>,        // operations between begin_op and end_op, with the new blocks each has logged
    calls: map<nat, nat>,       // history: calls of log_write by each operation, none if it is not there
    next: nat,                  // number of the next operation
    committing: bool,
    origin: Disk,               // the disk when the running commit started
    step: nat,                  // block writes the running commit has done
    done: seq<seq<Event>>,      // history: the groups whose header write has happened
    cur: seq<Event>,            // history: writes of the group being collected
    lost: seq<Event>)           // history: writes dropped by crashes

  datatype Outcome = Ok(s: Sys) | Blocked | Panic

  function Calls(s: Sys, op: nat): nat {
    if op in s.calls then s.calls[op] else 0
  }

  ghost function Plan(l: Layout, s: Sys): seq<Write> {
    if s.block == [] || !l.Fits(s.origin) || !Loggable(l, |s.content|, s.block) then []
    else CommitWrites(l, s.origin[l.start], s.content, s.block)
  }

  ghost function Next(l: Layout, s: Sys, a: Action): Outcome {
    match a
    case Begin =>
      if Admits(|s.block|, |s.open|, s.committing)
      then Ok(s.(open := s.open[s.next := 0], next := s.next + 1)) else Blocked
    case LogWrite(op, b, d) =>
      if op !in s.open || b >= |s.content| || l.InLog(b) then Blocked
      else if !LogWriteAllowed(|s.block|, l.size, |s.open|) then Panic
      else Ok(s.(content := s.content[b := d], block := Absorb(s.block, b),
                 open := s.open[op := s.open[op] + if b in s.block then 0 else 1],
                 calls := s.calls[op := Calls(s, op) + 1],
                 cur := s.cur + [Event(op, b, d)]))
    case End(op) =>
      if op !in s.open then Blocked
      else if s.committing then Panic
      else if s.open - {op} == map[]
      then Ok(s.(open := map[], committing := true, origin := s.disk, step := 0))
      else Ok(s.(open := s.open - {op}))
    case CommitWrite =>
      var plan := Plan(l, s);
      if !s.committing || s.step >= |plan| || plan[s.step].b >= |s.disk| then Blocked
      else
        var s' := s.(disk := s.disk[plan[s.step].b := plan[s.step].d], step := s.step + 1);
        Ok(if s.step == |s.block| then s'.(done := s.done + [s.cur], cur := []) else s')
    case CommitDone =>
      if s.committing && s.step == |Plan(l, s)| then Ok(s.(committing := false, block := [])) else Blocked
    case Crash(cuts) =>
      var d := AfterCrashes(l, s.disk, cuts);
      if !HeadOk(l, d) then Blocked else
        var r := Recovered(l, d);
        Ok(s.(disk := r, content := r, block := [], open := map[], committing := false,
              cur := [], lost := s.lost + s.cur))
  }

  ghost function Exec(l: Layout, s: Sys, acts: seq<Action>): Outcome {
    if acts == [] then Ok(s) else
      match Exec(l, s, acts[..|acts| - 1])
      case Ok(mid) => Next(l, mid, acts[|acts| - 1])
      case other => other
  }

  // A booted machine: empty log, cache in step with the disk.
  ghost predicate Boot(l: Layout, base: Disk, s: Sys) {
    && HeadOk(l, base) && Head(l, base) == []
    && s.disk == s.content == base && s.block == [] && s.open == map[] && !s.committing
    && s.done == [] && s.cur == [] && s.lost == []
  }

  ghost function Replay(d: Disk, es: seq<Event>): (r: Disk)
    ensures |r| == |d|
  {
    if es == [] then d else
      var before, e := Replay(d, es[..|es| - 1]), es[|es| - 1];
      if e.b < |d| then before[e.b := e.d] else before
  }

  ghost function Flat(groups: seq<seq<Event>>): seq<Event> {
    if groups == [] then [] else Flat(groups[..|groups| - 1]) + groups[|groups| - 1]
  }

  ghost predicate HasOp(es: seq<Event>, op: nat) {
    exists k | 0 <= k < |es| :: es[k].op == op
  }

  ghost predicate OnlyLogged(l: Layout, d: Disk, content: Disk, block: seq<nat>) {
    |d| == |content| && forall b | 0 <= b < |d| && !l.InLog(b) && b !in block :: d[b] == content[b]
  }

  /* ---- the invariant ---- */

  ghost predicate Shape(l: Layout, base: Disk, s: Sys) {
    && |s.disk| == |s.content| == |base| && l.Fits(base)
    && Loggable(l, |base|, s.block)
    && (forall i, j | 0 <= i < j < |s.block| :: s.block[i] != s.block[j])
    && SameHome(l, s.content, Replay(base, Flat(s.done) + s.cur))
    && (s.block == [] ==> s.cur == [])
    && (!s.committing && s.open == map[] ==> s.block == [])
  }

  ghost predicate Idle(l: Layout, base: Disk, s: Sys) {
    && HeadOk(l, s.disk) && Head(l, s.disk) == []
    && SameHome(l, s.disk, Replay(base, Flat(s.done)))
    && OnlyLogged(l, s.disk, s.content, s.block)
  }

  ghost predicate Committing(l: Layout, base: Disk, s: Sys) {
    && s.open == map[]
    && HeadOk(l, s.origin) && Head(l, s.origin) == [] && OnlyLogged(l, s.origin, s.content, s.block)
    && s.step <= |Plan(l, s)| && s.disk == Apply(s.origin, Plan(l, s)[..s.step])
    && (s.step <= |s.block| ==> SameHome(l, s.origin, Replay(base, Flat(s.done))))
    && (s.step > |s.block| ==> s.cur == [])
  }

  datatype Aspect = Form | Phase

  ghost predicate Part(a: Aspect, l: Layout, base: Disk, s: Sys) {
    match a
    case Form => Shape(l, base, s)
    case Phase => if s.committing then Committing(l, base, s) else Idle(l, base, s)
  }

  ghost predicate Inv(l: Layout, base: Disk, s: Sys) {
    forall a: Aspect :: Part(a, l, base, s)
  }

  lemma Unpack(l: Layout, base: Disk, s: Sys)
    requires Inv(l, base, s)
    ensures Shape(l, base, s) && if s.committing then Committing(l, base, s) else Idle(l, base, s)
  {
    assert Part(Form, l, base, s) && Part(Phase, l, base, s);
  }

  lemma Pack(l: Layout, base: Disk, s: Sys)
    requires Shape(l, base, s) && if s.committing then Committing(l, base, s) else Idle(l, base, s)
    ensures Inv(l, base, s)
  {
  }

  // No operation has writes in two groups, or some writes kept and some lost.
  ghost predicate Whole(s: Sys) {
    && (forall op: nat | HasOp(s.cur, op) ::
        !HasOp(s.lost, op) && forall i | 0 <= i < |s.done| :: !HasOp(s.done[i], op))
    && (forall op: nat, i | 0 <= i < |s.done| && HasOp(s.done[i], op) :: !HasOp(s.lost, op))
    && (forall op: nat, i, j | 0 <= i < j < |s.done| && HasOp(s.done[i], op) :: !HasOp(s.done[j], op))
  }

  // An operation that may still write has no write in a finished group or lost.
  ghost predicate Fresh(s: Sys, op: nat) {
    !HasOp(s.lost, op) && forall i | 0 <= i < |s.done| :: !HasOp(s.done[i], op)
  }

  ghost predicate OpsInv(s: Sys) {
    && Whole(s)
    && (forall op | op in s.open :: op < s.next && Fresh(s, op))
    && (forall op: nat | op >= s.next :: Fresh(s, op) && !HasOp(s.cur, op))
    && (s.committing ==> s.open == map[])
  }

  /* ---- what a state recovers to ---- */

  /** Whatever the moment, the disk recovers to exactly the groups whose header was written. */
  lemma Recoverable(l: Layout, base: Disk, s: Sys)
    requires Inv(l, base, s)
    ensures HeadOk(l, s.disk) && SameHome(l, Recovered(l, s.disk), Replay(base, Flat(s.done)))
  {
    Unpack(l, base, s);
    if !s.committing {
      NothingToRecover(l, s.disk);
    } else if s.block == [] {
      NothingToRecover(l, s.origin);
    } else {
      CrashAtomicity(l, s.origin, s.content, s.block, s.step);
      assert Flat(s.done) + [] == Flat(s.done);
    }
  }

  /* ---- every action keeps the invariant ---- */

  lemma ReplaySnoc(d: Disk, es: seq<Event>, e: Event)
    requires e.b < |d|
    ensures Replay(d, es + [e]) == Replay(d, es)[e.b := e.d]
  {
    assert (es + [e])[..|es|] == es;
  }

  lemma AbsorbKeeps(l: Layout, n: nat, block: seq<nat>, b: nat)
    requires Loggable(l, n, block) && b < n && !l.InLog(b) && |block| < l.size - 1 && |block| < LOGSIZE
    requires forall i, j | 0 <= i < j < |block| :: block[i] != block[j]
    ensures Loggable(l, n, Absorb(block, b)) && b in Absorb(block, b) && forall c | c in block :: c in Absorb(block, b)
    ensures forall i, j | 0 <= i < j < |Absorb(block, b)| :: Absorb(block, b)[i] != Absorb(block, b)[j]
  {
  }

  // One more event: the contents are still the replay of all events.
  lemma ReplayMore(l: Layout, base: Disk, content: Disk, es: seq<Event>, cur: seq<Event>, e: Event)
    requires SameHome(l, content, Replay(base, es + cur)) && e.b < |base|
    ensures SameHome(l, content[e.b := e.d], Replay(base, es + (cur + [e])))
  {
    assert es + (cur + [e]) == es + cur + [e];
    ReplaySnoc(base, es + cur, e);
  }

  lemma OnlyLoggedMore(l: Layout, d: Disk, content: Disk, block: seq<nat>, e: Event)
    requires OnlyLogged(l, d, content, block) && e.b < |content|
    ensures OnlyLogged(l, d, content[e.b := e.d], Absorb(block, e.b))
  {
  }

  lemma LogWriteKeeps(l: Layout, base: Disk, s: Sys, op: nat, b: nat, d: Block)
    requires Inv(l, base, s) && Next(l, s, LogWrite(op, b, d)).Ok?
    ensures Inv(l, base, Next(l, s, LogWrite(op, b, d)).s)
  {
    var s' := Next(l, s, LogWrite(op, b, d)).s;
    Unpack(l, base, s);
    assert !s.committing && op in s'.open;
    AbsorbKeeps(l, |base|, s.block, b);
    OnlyLoggedMore(l, s.disk, s.content, s.block, Event(op, b, d));
    ReplayMore(l, base, s.content, Flat(s.done), s.cur, Event(op, b, d));
    Pack(l, base, s');
  }

  lemma EndKeeps(l: Layout, base: Disk, s: Sys, op: nat)
    requires Inv(l, base, s) && Next(l, s, End(op)).Ok?
    ensures Inv(l, base, Next(l, s, End(op)).s)
  {
    var s' := Next(l, s, End(op)).s;
    Unpack(l, base, s);
    assert Plan(l, s')[..0] == [];
    Pack(l, base, s');
  }

  lemma BeginKeeps(l: Layout, base: Disk, s: Sys)
    requires Inv(l, base, s) && Next(l, s, Begin).Ok?
    ensures Inv(l, base, Next(l, s, Begin).s)
  {
    Unpack(l, base, s);
    Pack(l, base, Next(l, s, Begin).s);
  }

  lemma PlanStep(d: Disk, plan: seq<Write>, k: nat)
    requires k < |plan| && plan[k].b < |d|
    ensures Apply(d, plan[..k + 1]) == Apply(d, plan[..k])[plan[k].b := plan[k].d]
  {
    assert plan[..k + 1][..k] == plan[..k];
  }

  // The header write turns the current group into a finished one.
  lemma GroupDone(l: Layout, base: Disk, s: Sys, s1: Sys)
    requires Inv(l, base, s) && s.committing && s1 == s.(disk := s1.disk, step := |s.block| + 1)
    requires Plan(l, s1) == Plan(l, s) && s1.step <= |Plan(l, s)| && |s1.disk| == |s.disk|
    requires s1.disk == Apply(s.origin, Plan(l, s)[..s1.step])
    ensures Inv(l, base, s1.(done := s.done + [s.cur], cur := []))
  {
    var s' := s1.(done := s.done + [s.cur], cur := []);
    Unpack(l, base, s);
    assert s'.done[..|s'.done| - 1] == s.done;
    assert Flat(s'.done) + [] == Flat(s.done) + s.cur;
    assert Plan(l, s') == Plan(l, s);
    Pack(l, base, s');
  }

  // Any other write of a commit.
  lemma WriteDone(l: Layout, base: Disk, s: Sys, s1: Sys)
    requires Inv(l, base, s) && s.committing && s1 == s.(disk := s1.disk, step := s.step + 1) && s.step != |s.block|
    requires Plan(l, s1) == Plan(l, s) && s1.step <= |Plan(l, s)| && |s1.disk| == |s.disk|
    requires s1.disk == Apply(s.origin, Plan(l, s)[..s1.step])
    ensures Inv(l, base, s1)
  {
    Unpack(l, base, s);
    Pack(l, base, s1);
  }

  ghost predicate Writing(l: Layout, s: Sys) {
    s.committing && s.step < |Plan(l, s)| && Plan(l, s)[s.step].b < |s.disk|
  }

  // The disk and the step after the next write.
  ghost function Written(l: Layout, s: Sys): Sys
    requires Writing(l, s)
  {
    s.(disk := s.disk[Plan(l, s)[s.step].b := Plan(l, s)[s.step].d], step := s.step + 1)
  }

  lemma WrittenDisk(l: Layout, base: Disk, s: Sys)
    requires Inv(l, base, s) && Writing(l, s)
    ensures Plan(l, Written(l, s)) == Plan(l, s) && Written(l, s).disk == Apply(s.origin, Plan(l, s)[..s.step + 1])
  {
    Unpack(l, base, s);
    PlanStep(s.origin, Plan(l, s), s.step);
  }

  lemma CommitWriteKeeps(l: Layout, base: Disk, s: Sys)
    requires Inv(l, base, s) && Next(l, s, CommitWrite).Ok?
    ensures Inv(l, base, Next(l, s, CommitWrite).s)
  {
    WrittenDisk(l, base, s);
    if s.step == |s.block| {
      GroupDone(l, base, s, Written(l, s));
    } else {
      WriteDone(l, base, s, Written(l, s));
    }
  }

  // A completed commit has emptied the log and put the contents at home.
  lemma CommitCompletes(l: Layout, d: Disk, content: Disk, blocks: seq<nat>)
    requires l.Fits(d) && Loggable(l, |content|, blocks) && OnlyLogged(l, d, content, blocks)
    ensures var d' := Apply(d, CommitWrites(l, d[l.start], content, blocks));
            HeadOk(l, d') && Head(l, d') == [] && SameHome(l, d', content)
  {
    var ws := CommitWrites(l, d[l.start], content, blocks);
    var d' := Apply(d, ws);
    EmptyHead(l, d', PutHead(d[l.start], blocks));
    forall b | 0 <= b < |d| && !l.InLog(b)
      ensures d'[b] == content[b]
    {
      if b in blocks {
        var t :| 0 <= t < |blocks| && blocks[t] == b;
        assert ws[|blocks| + 1 + t].b == b;
      }
      AllSame(d, ws, b, content[b]);
    }
  }

  lemma CommitDoneKeeps(l: Layout, base: Disk, s: Sys)
    requires Inv(l, base, s) && Next(l, s, CommitDone).Ok?
    ensures Inv(l, base, Next(l, s, CommitDone).s)
  {
    var plan := Plan(l, s);
    Unpack(l, base, s);
    assert plan[..|plan|] == plan;
    assert Flat(s.done) + [] == Flat(s.done);
    if s.block != [] {
      CommitCompletes(l, s.origin, s.content, s.block);
    }
    Pack(l, base, Next(l, s, CommitDone).s);
  }

  lemma CrashKeeps(l: Layout, base: Disk, s: Sys, cuts: seq<nat>)
    requires Inv(l, base, s)
    ensures Next(l, s, Crash(cuts)).Ok? && Inv(l, base, Next(l, s, Crash(cuts)).s)
  {
    Recoverable(l, base, s);
    RecoveryMayCrashRepeatedly(l, s.disk, cuts);
    var d := AfterCrashes(l, s.disk, cuts);
    var rw := RecoverWrites(l, d);
    EmptyHead(l, Recovered(l, d), d[l.start]);
    assert Flat(s.done) + [] == Flat(s.done);
    Unpack(l, base, s);
    Pack(l, base, Next(l, s, Crash(cuts)).s);
  }

  lemma NextKeeps(l: Layout, base: Disk, s: Sys, a: Action)
    requires Inv(l, base, s) && Next(l, s, a).Ok?
    ensures Inv(l, base, Next(l, s, a).s)
  {
    match a
    case Begin => BeginKeeps(l, base, s);
    case LogWrite(op, b, d) => LogWriteKeeps(l, base, s, op, b, d);
    case End(op) => EndKeeps(l, base, s, op);
    case CommitWrite => CommitWriteKeeps(l, base, s);
    case CommitDone => CommitDoneKeeps(l, base, s);
    case Crash(cuts) => CrashKeeps(l, base, s, cuts);
  }

  lemma HasOpConcat(es: seq<Event>, fs: seq<Event>, op: nat)
    ensures HasOp(es + fs, op) <==> HasOp(es, op) || HasOp(fs, op)
  {
    if HasOp(es, op) {
      var k :| 0 <= k < |es| && es[k].op == op;
      assert (es + fs)[k].op == op;
    }
    if HasOp(fs, op) {
      var k :| 0 <= k < |fs| && fs[k].op == op;
      assert (es + fs)[|es| + k].op == op;
    }
  }

  // Steps that add no event and move none.
  lemma OpsQuiet(l: Layout, s: Sys, a: Action)
    requires OpsInv(s) && Next(l, s, a).Ok?
    requires a.Begin? || a.End? || a.CommitDone? || (a.CommitWrite? && s.step != |s.block|)
    ensures OpsInv(Next(l, s, a).s)
  {
    var s' := Next(l, s, a).s;
    assert a.Begin? ==> Fresh(s, s.next);
    assert forall o: nat | Fresh(s, o) :: Fresh(s', o);
  }

  lemma OpsLogWrite(l: Layout, s: Sys, op: nat, b: nat, d: Block)
    requires OpsInv(s) && Next(l, s, LogWrite(op, b, d)).Ok?
    ensures OpsInv(Next(l, s, LogWrite(op, b, d)).s)
  {
    var s' := Next(l, s, LogWrite(op, b, d)).s;
    forall o: nat
      ensures HasOp(s'.cur, o) <==> HasOp(s.cur, o) || o == op
    {
      HasOpConcat(s.cur, [Event(op, b, d)], o);
      assert [Event(op, b, d)][0].op == op;
    }
    assert Fresh(s, op);
    assert forall o: nat | Fresh(s, o) :: Fresh(s', o);
  }

  // The header write moves the current group to the finished ones.
  lemma OpsHeader(l: Layout, s: Sys)
    requires OpsInv(s) && Next(l, s, CommitWrite).Ok? && s.step == |s.block|
    ensures OpsInv(Next(l, s, CommitWrite).s)
  {
    var s' := Next(l, s, CommitWrite).s;
    assert s'.done[|s.done|] == s.cur;
    assert forall o: nat | o >= s.next :: Fresh(s, o) && !HasOp(s.cur, o);
  }

  lemma OpsCrash(l: Layout, s: Sys, cuts: seq<nat>)
    requires OpsInv(s) && Next(l, s, Crash(cuts)).Ok?
    ensures OpsInv(Next(l, s, Crash(cuts)).s)
  {
    var s' := Next(l, s, Crash(cuts)).s;
    forall o: nat
      ensures HasOp(s'.lost, o) <==> HasOp(s.lost, o) || HasOp(s.cur, o)
    {
      HasOpConcat(s.lost, s.cur, o);
    }
    forall o: nat | o >= s.next
      ensures Fresh(s', o) && !HasOp(s'.cur, o)
    {
      assert Fresh(s, o) && !HasOp(s.cur, o);
    }
  }

  lemma OpsKeep(l: Layout, s: Sys, a: Action)
    requires OpsInv(s) && Next(l, s, a).Ok?
    ensures OpsInv(Next(l, s, a).s)
  {
    if a.LogWrite? {
      OpsLogWrite(l, s, a.op, a.b, a.d);
    } else if a.Crash? {
      OpsCrash(l, s, a.cuts);
    } else if a.CommitWrite? && s.step == |s.block| {
      OpsHeader(l, s);
    } else {
      OpsQuiet(l, s, a);
    }
  }

  lemma {:induction false} RunKeeps(l: Layout, base: Disk, s0: Sys, acts: seq<Action>, s: Sys)
    requires Boot(l, base, s0) && Exec(l, s0, acts) == Ok(s)
    ensures Inv(l, base, s) && OpsInv(s)
  {
    if acts == [] {
      assert Flat([]) + [] == [];
      Pack(l, base, s);
    } else {
      var n := |acts| - 1;
      var mid := Exec(l, s0, acts[..n]).s;
      RunKeeps(l, base, s0, acts[..n], mid);
      NextKeeps(l, base, mid, acts[n]);
      OpsKeep(l, mid, acts[n]);
    }
  }

  /** Group commit over whole runs.  However operations interleave and wherever the machine
      crashes, the disk recovers to the effect of the committed groups in order; the writes of
      an operation all fall in one group, or all are lost; and when no operation is open and no
      commit is running, nothing that was written is still waiting to become durable. */
  lemma EveryRun(l: Layout, base: Disk, s0: Sys, acts: seq<Action>, s: Sys)
    requires Boot(l, base, s0) && Exec(l, s0, acts) == Ok(s)
    ensures HeadOk(l, s.disk) && SameHome(l, Recovered(l, s.disk), Replay(base, Flat(s.done)))
    ensures Whole(s)
    ensures s.open == map[] && !s.committing ==> s.cur == [] && SameHome(l, s.disk, s.content)
  {
    RunKeeps(l, base, s0, acts, s);
    Recoverable(l, base, s);
    Unpack(l, base, s);
  }

  /** A crash is always survivable: recovery is never stuck, whenever it happens, and leaves the committed
      groups. */
  lemma CrashNeverBlocks(l: Layout, base: Disk, s0: Sys, acts: seq<Action>, s: Sys, cuts: seq<nat>)
    requires Boot(l, base, s0) && Exec(l, s0, acts) == Ok(s)
    ensures Next(l, s, Crash(cuts)).Ok? && SameHome(l, Next(l, s, Crash(cuts)).s.disk, Replay(base, Flat(s.done)))
  {
    RunKeeps(l, base, s0, acts, s);
    CrashKeeps(l, base, s, cuts);
    Unpack(l, base, Next(l, s, Crash(cuts)).s);
  }

  /* ---- the reservation made by begin_op (log.c:133, log.c:216) ---- */

  // How long a list of n blocks gets if each of these operations logs MAXOPBLOCKS more new ones.
  ghost function AllLog(ops: set<nat>, n: nat): nat {
    if ops == {} then n else
      var op :| op in ops;
      AllLog(ops - {op}, n + MAXOPBLOCKS)
  }

  lemma {:induction false} AllLogIs(ops: set<nat>, n: nat)
    ensures AllLog(ops, n) == n + MAXOPBLOCKS * |ops|
    decreases |ops|
  {
    if ops != {} {
      var op :| op in ops && AllLog(ops, n) == AllLog(ops - {op}, n + MAXOPBLOCKS);
      AllLogIs(ops - {op}, n + MAXOPBLOCKS);
      assert |ops - {op}| == |ops| - 1;
    }
  }

  /** In every run, begin_op waits if and only if a commit is running, or the list would pass LOGSIZE if every open
      operation and the new one each logged MAXOPBLOCKS more new blocks.  Otherwise it adds one open operation, with
      nothing logged, and changes nothing else. */
  lemma BeginWaitsIff(l: Layout, base: Disk, s0: Sys, acts: seq<Action>, s: Sys)
    requires Boot(l, base, s0) && Exec(l, s0, acts) == Ok(s)
    ensures Next(l, s, Begin).Blocked? <==> s.committing || AllLog(s.open.Keys + {s.next}, |s.block|) > LOGSIZE
    ensures !Next(l, s, Begin).Blocked? ==>
            Next(l, s, Begin) == Ok(s.(open := s.open[s.next := 0], next := s.next + 1)) && s.next !in s.open
  {
    RunKeeps(l, base, s0, acts, s);
    AllLogIs(s.open.Keys + {s.next}, |s.block|);
    assert s.next !in s.open.Keys && |s.open.Keys| == |s.open|;
  }

  // Blocks the open operations may still add, at MAXOPBLOCKS each.
  ghost function Unspent(open: map<nat, nat>): int {
    if open == map[] then 0 else
      var op :| op in open;
      MAXOPBLOCKS - open[op] + Unspent(open - {op})
  }

  lemma {:induction false} UnspentSplit(open: map<nat, nat>, op: nat)
    requires op in open
    ensures Unspent(open) == MAXOPBLOCKS - open[op] + Unspent(open - {op})
    decreases |open|
  {
    var o :| o in open && Unspent(open) == MAXOPBLOCKS - open[o] + Unspent(open - {o});
    if o != op {
      UnspentSplit(open - {o}, op);
      UnspentSplit(open - {op}, o);
      assert open - {o} - {op} == open - {op} - {o};
    }
  }

  lemma UnspentUpdate(open: map<nat, nat>, op: nat, n: nat)
    ensures Unspent(open[op := n]) == MAXOPBLOCKS - n + Unspent(open - {op})
  {
    UnspentSplit(open[op := n], op);
    assert open[op := n] - {op} == open - {op};
  }

  // The action does not make an operation add more than MAXOPBLOCKS blocks to the log.
  ghost predicate InBudget(s: Sys, a: Action) {
    a.LogWrite? && a.op in s.open && a.b !in s.block ==> s.open[a.op] < MAXOPBLOCKS
  }

  ghost predicate BudgetedRun(l: Layout, s: Sys, acts: seq<Action>) {
    forall k | 0 <= k < |acts| :: Exec(l, s, acts[..k]).Ok? ==> InBudget(Exec(l, s, acts[..k]).s, acts[k])
  }

  ghost predicate Reserved(s: Sys) {
    && |s.block| + Unspent(s.open) <= LOGSIZE
    && (forall op | op in s.open :: s.open[op] <= MAXOPBLOCKS)
    && (forall op | op in s.open :: op < s.next)
  }

  lemma {:induction false} UnspentBounds(open: map<nat, nat>)
    requires forall op | op in open :: open[op] <= MAXOPBLOCKS
    ensures 0 <= Unspent(open) <= MAXOPBLOCKS * |open|
    decreases |open|
  {
    if open != map[] {
      var o :| o in open && Unspent(open) == MAXOPBLOCKS - open[o] + Unspent(open - {o});
      UnspentBounds(open - {o});
      assert (open - {o}).Keys == open.Keys - {o};
    }
  }

  lemma ReservationKeptByWrite(l: Layout, s: Sys, op: nat, b: nat, d: Block)
    requires Reserved(s) && InBudget(s, LogWrite(op, b, d)) && Next(l, s, LogWrite(op, b, d)).Ok?
    ensures Reserved(Next(l, s, LogWrite(op, b, d)).s)
  {
    var s' := Next(l, s, LogWrite(op, b, d)).s;
    UnspentUpdate(s.open, op, s'.open[op]);
    UnspentSplit(s.open, op);
  }

  lemma UnspentNew(open: map<nat, nat>, op: nat)
    requires op !in open && forall o | o in open :: open[o] <= MAXOPBLOCKS
    ensures Unspent(open[op := 0]) <= MAXOPBLOCKS * (|open| + 1)
  {
    UnspentUpdate(open, op, 0);
    assert open - {op} == open;
    UnspentBounds(open);
  }

  lemma ReservationKeptByBegin(l: Layout, s: Sys)
    requires Reserved(s) && Next(l, s, Begin).Ok?
    ensures Reserved(Next(l, s, Begin).s)
  {
    UnspentNew(s.open, s.next);
  }

  lemma ReservationKeptByEnd(l: Layout, s: Sys, op: nat)
    requires Reserved(s) && Next(l, s, End(op)).Ok?
    ensures Reserved(Next(l, s, End(op)).s)
  {
    UnspentSplit(s.open, op);
  }

  lemma ReservationKept(l: Layout, s: Sys, a: Action)
    requires Reserved(s) && InBudget(s, a) && Next(l, s, a).Ok?
    ensures Reserved(Next(l, s, a).s)
  {
    match a
    case Begin => ReservationKeptByBegin(l, s);
    case LogWrite(op, b, d) => ReservationKeptByWrite(l, s, op, b, d);
    case End(op) => ReservationKeptByEnd(l, s, op);
    case CommitWrite =>
    case CommitDone => UnspentBounds(s.open);
    case Crash(_) =>
  }

  /** If every operation adds at most MAXOPBLOCKS blocks, the logged blocks are distinct and,
      together with what the open operations may still add, fit in LOGSIZE. */
  lemma {:induction false} Reservation(l: Layout, base: Disk, s0: Sys, acts: seq<Action>)
    requires Boot(l, base, s0) && BudgetedRun(l, s0, acts) && Exec(l, s0, acts).Ok?
    ensures var s := Exec(l, s0, acts).s;
            Reserved(s) && forall i, j | 0 <= i < j < |s.block| :: s.block[i] != s.block[j]
  {
    if acts != [] {
      var n := |acts| - 1;
      assert forall k | 0 <= k < n :: acts[..n][..k] == acts[..k] && acts[..n][k] == acts[k];
      Reservation(l, base, s0, acts[..n]);
      ReservationKept(l, Exec(l, s0, acts[..n]).s, acts[n]);
    }
    RunKeeps(l, base, s0, acts, Exec(l, s0, acts).s);
    Unpack(l, base, Exec(l, s0, acts).s);
  }

  /* ---- does the reservation keep log_write from panicking? ---- */

  /** Exactly when a log_write within the budget of new blocks panics.  The full log is checked before the block is
      looked for in it, so with room for LOGSIZE blocks only a block already listed meets the panic. */
  lemma PanicIff(l: Layout, base: Disk, s0: Sys, acts: seq<Action>, s: Sys, op: nat, b: nat, d: Block)
    requires Boot(l, base, s0) && BudgetedRun(l, s0, acts) && Exec(l, s0, acts) == Ok(s)
    requires op in s.open && b < |s.content| && !l.InLog(b) && InBudget(s, LogWrite(op, b, d))
    ensures Next(l, s, LogWrite(op, b, d)) == Panic <==> |s.block| >= LOGSIZE || |s.block| >= l.size - 1
    ensures l.size - 1 >= LOGSIZE && Next(l, s, LogWrite(op, b, d)) == Panic ==> b in s.block
  {
    assert |s.open| > 0 by { assert op in s.open.Keys; }
    Reservation(l, base, s0, acts);
    if b !in s.block { SpareRoom(s, op); }
  }

  // While an operation has budget left, the log is not full.
  lemma SpareRoom(s: Sys, op: nat)
    requires Reserved(s) && op in s.open && s.open[op] < MAXOPBLOCKS
    ensures |s.block| < LOGSIZE
  {
    UnspentSplit(s.open, op);
    UnspentBounds(s.open - {op});
  }

  // The action does not make an operation call log_write more than MAXOPBLOCKS times.
  ghost predicate InCalls(s: Sys, a: Action) {
    a.LogWrite? && a.op in s.open ==> Calls(s, a.op) < MAXOPBLOCKS
  }

  ghost predicate FewCalls(l: Layout, s: Sys, acts: seq<Action>) {
    forall k | 0 <= k < |acts| :: Exec(l, s, acts[..k]).Ok? ==> InCalls(Exec(l, s, acts[..k]).s, acts[k])
  }

  // A new block takes a call.
  ghost predicate CallsCover(s: Sys) {
    forall op | op in s.open :: s.open[op] <= Calls(s, op)
  }

  lemma CallsCoverNext(l: Layout, base: Disk, s0: Sys, acts: seq<Action>, a: Action)
    requires Boot(l, base, s0) && Exec(l, s0, acts).Ok? && CallsCover(Exec(l, s0, acts).s)
    requires Next(l, Exec(l, s0, acts).s, a).Ok?
    ensures CallsCover(Next(l, Exec(l, s0, acts).s, a).s)
  {
  }

  lemma {:induction false} CallsCoverRun(l: Layout, base: Disk, s0: Sys, acts: seq<Action>)
    requires Boot(l, base, s0) && Exec(l, s0, acts).Ok?
    ensures CallsCover(Exec(l, s0, acts).s)
  {
    if acts != [] {
      var n := |acts| - 1;
      CallsCoverRun(l, base, s0, acts[..n]);
      CallsCoverNext(l, base, s0, acts[..n], acts[n]);
    }
  }

  // Few calls are few new blocks.
  lemma FewCallsBudgeted(l: Layout, base: Disk, s0: Sys, acts: seq<Action>)
    requires Boot(l, base, s0) && FewCalls(l, s0, acts)
    ensures BudgetedRun(l, s0, acts)
  {
    forall k | 0 <= k < |acts| && Exec(l, s0, acts[..k]).Ok?
      ensures InBudget(Exec(l, s0, acts[..k]).s, acts[k])
    {
      CallsCoverRun(l, base, s0, acts[..k]);
    }
  }

  // After this run, an operation that has calls left does not panic by calling log_write.
  ghost predicate CanLog(l: Layout, base: Disk, s0: Sys, acts: seq<Action>, a: Action) {
    a.LogWrite? && Boot(l, base, s0) && FewCalls(l, s0, acts) && Exec(l, s0, acts).Ok?
    && InCalls(Exec(l, s0, acts).s, a) ==>
      Next(l, Exec(l, s0, acts).s, a) != Panic
  }

  ghost predicate NeverTooBig(l: Layout) {
    forall base: Disk, s0: Sys, acts: seq<Action>, a: Action :: CanLog(l, base, s0, acts, a)
  }

  function Spent(i: nat, op: nat): nat {
    if i <= op * MAXOPBLOCKS then 0 else if i >= (op + 1) * MAXOPBLOCKS then MAXOPBLOCKS else i - op * MAXOPBLOCKS
  }

  function FillAction(l: Layout, i: nat, z: Block): Action {
    LogWrite(i / MAXOPBLOCKS, l.start + l.size + i, z)
  }

  // Three operations begin, then log i distinct blocks between them, one after the other.
  function Filling(l: Layout, i: nat, z: Block): seq<Action> {
    if i == 0 then Begins(3)
    else Filling(l, i - 1, z) + [FillAction(l, i - 1, z)]
  }

  ghost predicate FilledTo(l: Layout, s: Sys, i: nat) {
    && |s.content| == l.start + l.size + LOGSIZE && !s.committing
    && s.block == seq(i, k requires 0 <= k < i => l.start + l.size + k)
    && s.open == map[0 := Spent(i, 0), 1 := Spent(i, 1), 2 := Spent(i, 2)]
    && Calls(s, 0) == Spent(i, 0) && Calls(s, 1) == Spent(i, 1) && Calls(s, 2) == Spent(i, 2)
  }

  lemma FewCallsSnoc(l: Layout, s0: Sys, acts: seq<Action>, a: Action)
    requires FewCalls(l, s0, acts) && Exec(l, s0, acts).Ok? && InCalls(Exec(l, s0, acts).s, a)
    ensures FewCalls(l, s0, acts + [a]) && Exec(l, s0, acts + [a]) == Next(l, Exec(l, s0, acts).s, a)
  {
    assert (acts + [a])[..|acts|] == acts;
    forall k | 0 <= k < |acts| + 1
      ensures Exec(l, s0, (acts + [a])[..k]).Ok? ==> InCalls(Exec(l, s0, (acts + [a])[..k]).s, (acts + [a])[k])
    {
      if k < |acts| {
        assert (acts + [a])[..k] == acts[..k];
        assert Exec(l, s0, acts[..k]).Ok? ==> InCalls(Exec(l, s0, acts[..k]).s, acts[k]);
      }
    }
  }

  function Begins(k: nat): seq<Action> {
    if k == 0 then [] else Begins(k - 1) + [Begin]
  }

  function Opened(k: nat): (m: map<nat, nat>)
    ensures |m| == k && forall op :: op in m ==> 0 <= op < k
  {
    if k == 0 then map[] else Opened(k - 1)[k - 1 := 0]
  }

  lemma BeginsStep(l: Layout, s0: Sys, acts: seq<Action>, s: Sys, s': Sys)
    requires FewCalls(l, s0, acts) && Exec(l, s0, acts) == Ok(s) && Next(l, s, Begin) == Ok(s')
    ensures FewCalls(l, s0, acts + [Begin]) && Exec(l, s0, acts + [Begin]) == Ok(s')
  {
    FewCallsSnoc(l, s0, acts, Begin);
  }

  lemma BeginsNext(l: Layout, s0: Sys, k: nat)
    requires s0.block == [] && !s0.committing && 0 < k <= 3
    ensures Next(l, s0.(open := Opened(k - 1), next := k - 1), Begin) == Ok(s0.(open := Opened(k), next := k))
  {
  }

  // A machine that has done nothing yet.
  ghost predicate Pristine(s0: Sys) {
    s0.block == [] && s0.open == map[] && s0.calls == map[] && !s0.committing && s0.next == 0
  }

  lemma {:induction false} BeginsRun(l: Layout, s0: Sys, k: nat)
    requires Pristine(s0) && k <= 3
    ensures FewCalls(l, s0, Begins(k)) && Exec(l, s0, Begins(k)) == Ok(s0.(open := Opened(k), next := k))
  {
    if k > 0 {
      BeginsRun(l, s0, k - 1);
      BeginsNext(l, s0, k);
      BeginsStep(l, s0, Begins(k - 1), s0.(open := Opened(k - 1), next := k - 1), s0.(open := Opened(k), next := k));
    }
  }

  lemma FilledOpen(open: map<nat, nat>, i: nat)
    requires open == map[0 := Spent(i, 0), 1 := Spent(i, 1), 2 := Spent(i, 2)] && i < LOGSIZE
    ensures var op := i / MAXOPBLOCKS;
            && op in open && open[op] < MAXOPBLOCKS && |open| >= 1
            && open[op := open[op] + 1] == map[0 := Spent(i + 1, 0), 1 := Spent(i + 1, 1), 2 := Spent(i + 1, 2)]
  {
    var op := i / MAXOPBLOCKS;
    assert op == 0 || op == 1 || op == 2;
    assert 0 in open.Keys;
  }

  lemma FilledCalls(s: Sys, s': Sys, i: nat)
    requires Calls(s, 0) == Spent(i, 0) && Calls(s, 1) == Spent(i, 1) && Calls(s, 2) == Spent(i, 2) && i < LOGSIZE
    requires s'.calls == s.calls[i / MAXOPBLOCKS := Calls(s, i / MAXOPBLOCKS) + 1]
    ensures Calls(s, i / MAXOPBLOCKS) < MAXOPBLOCKS
    ensures Calls(s', 0) == Spent(i + 1, 0) && Calls(s', 1) == Spent(i + 1, 1) && Calls(s', 2) == Spent(i + 1, 2)
  {
    var op := i / MAXOPBLOCKS;
    assert op == 0 || op == 1 || op == 2;
  }

  lemma FillStep(l: Layout, s: Sys, i: nat, z: Block)
    requires FilledTo(l, s, i) && i < LOGSIZE
    ensures i / MAXOPBLOCKS in s.open && FillAction(l, i, z).b !in s.block && InCalls(s, FillAction(l, i, z))
    ensures i >= l.size - 1 ==> Next(l, s, FillAction(l, i, z)) == Panic
    ensures i < l.size - 1 ==> Next(l, s, FillAction(l, i, z)).Ok?
    ensures i < l.size - 1 ==> FilledTo(l, Next(l, s, FillAction(l, i, z)).s, i + 1)
  {
    FilledOpen(s.open, i);
    FilledCalls(s, s.(calls := s.calls[i / MAXOPBLOCKS := Calls(s, i / MAXOPBLOCKS) + 1]), i);
  }

  lemma {:induction false} Fill(l: Layout, s0: Sys, i: nat, z: Block)
    requires Pristine(s0) && |s0.content| == l.start + l.size + LOGSIZE && i <= LOGSIZE && i <= l.size - 1
    ensures FewCalls(l, s0, Filling(l, i, z)) && Exec(l, s0, Filling(l, i, z)).Ok?
    ensures FilledTo(l, Exec(l, s0, Filling(l, i, z)).s, i)
  {
    if i == 0 {
      BeginsRun(l, s0, 3);
      assert Opened(3) == map[0 := 0, 1 := 0, 2 := 0];
    } else {
      Fill(l, s0, i - 1, z);
      FillStep(l, Exec(l, s0, Filling(l, i - 1, z)).s, i - 1, z);
      FewCallsSnoc(l, s0, Filling(l, i - 1, z), FillAction(l, i - 1, z));
    }
  }

  lemma FillPanics(l: Layout, base: Disk, s0: Sys, i: nat, z: Block)
    requires Boot(l, base, s0) && Pristine(s0)
    requires |s0.content| == l.start + l.size + LOGSIZE && i < LOGSIZE && i == l.size - 1
    ensures !CanLog(l, base, s0, Filling(l, i, z), FillAction(l, i, z))
  {
    Fill(l, s0, i, z);
    FillStep(l, Exec(l, s0, Filling(l, i, z)).s, i, z);
  }

  lemma BlankBoots(l: Layout, z: Block, base: Disk, s0: Sys)
    requires l.size >= 1 && z[0] == 0 && |base| >= l.start + l.size && forall b | 0 <= b < |base| :: base[b] == z
    requires s0 == Sys(base, base, [], map[], map[], 0, false, base, 0, [], [], [])
    ensures Boot(l, base, s0) && Pristine(s0)
  {
  }

  // With too few log blocks, operations within their calls can fill the log and the next write panics.
  lemma TooBig(l: Layout, z: Block)
    requires 1 <= l.size <= LOGSIZE && z[0] == 0
    ensures !NeverTooBig(l)
  {
    var base: Disk := seq(l.start + l.size + LOGSIZE, _ => z);
    var s0 := Sys(base, base, [], map[], map[], 0, false, base, 0, [], [], []);
    BlankBoots(l, z, base, s0);
    FillPanics(l, base, s0, l.size - 1, z);
  }

  /** "this op might exhaust log space; wait for commit" (log.c:133): if no operation calls log_write more than
      MAXOPBLOCKS times, waiting keeps log_write from panicking exactly when the log has at least LOGSIZE blocks
      besides its header.  mkfs gives it LOGSIZE blocks in all (mkfs.c:25), one too few. */
  lemma ReservationSufficesIff(l: Layout)
    requires l.size >= 1
    ensures NeverTooBig(l) <==> l.size - 1 >= LOGSIZE
  {
    if l.size - 1 < LOGSIZE {
      var z: Block := seq(BWORDS, _ => 0);
      TooBig(l, z);
    } else {
      forall base: Disk, s0: Sys, acts: seq<Action>, a: Action
        ensures CanLog(l, base, s0, acts, a)
      {
        EnoughRoom(l, base, s0, acts, a);
      }
    }
  }

  lemma EnoughRoom(l: Layout, base: Disk, s0: Sys, acts: seq<Action>, a: Action)
    requires l.size - 1 >= LOGSIZE
    ensures CanLog(l, base, s0, acts, a)
  {
    if Boot(l, base, s0) && FewCalls(l, s0, acts) && Exec(l, s0, acts).Ok? {
      FewCallsBudgeted(l, base, s0, acts);
      Reservation(l, base, s0, acts);
      CallsCoverRun(l, base, s0, acts);
      var s := Exec(l, s0, acts).s;
      if a.LogWrite? && a.op in s.open && InCalls(s, a) {
        SpareRoom(s, a.op);
        assert |s.open| > 0 by { assert a.op in s.open.Keys; }
      }
    }
  }

  /** Counting only new blocks is not enough, whatever the size of the log: once three operations have filled it,
      logging one of its blocks again is within every budget of new blocks, and panics. */
  lemma FullLogPanics(l: Layout, z: Block) returns (base: Disk, s0: Sys, acts: seq<Action>)
    requires l.size - 1 >= LOGSIZE && z[0] == 0
    ensures Boot(l, base, s0) && BudgetedRun(l, s0, acts) && Exec(l, s0, acts) == Panic
  {
    base := seq(l.start + l.size + LOGSIZE, _ => z);
    s0 := Sys(base, base, [], map[], map[], 0, false, base, 0, [], [], []);
    BlankBoots(l, z, base, s0);
    Fill(l, s0, LOGSIZE, z);
    FewCallsBudgeted(l, base, s0, Filling(l, LOGSIZE, z));
    acts := Relogging(l, s0, z);
  }

  lemma Relogging(l: Layout, s0: Sys, z: Block) returns (acts: seq<Action>)
    requires l.size - 1 >= LOGSIZE && BudgetedRun(l, s0, Filling(l, LOGSIZE, z))
    requires Exec(l, s0, Filling(l, LOGSIZE, z)).Ok? && FilledTo(l, Exec(l, s0, Filling(l, LOGSIZE, z)).s, LOGSIZE)
    ensures BudgetedRun(l, s0, acts) && Exec(l, s0, acts) == Panic
  {
    var s, a := Exec(l, s0, Filling(l, LOGSIZE, z)).s, LogWrite(0, l.start + l.size, z);
    assert s.block[0] == a.b;
    acts := Filling(l, LOGSIZE, z) + [a];
    BudgetedSnoc(l, s0, Filling(l, LOGSIZE, z), a);
  }

  lemma BudgetedSnoc(l: Layout, s0: Sys, acts: seq<Action>, a: Action)
    requires BudgetedRun(l, s0, acts) && Exec(l, s0, acts).Ok? && InBudget(Exec(l, s0, acts).s, a)
    ensures BudgetedRun(l, s0, acts + [a]) && Exec(l, s0, acts + [a]) == Next(l, Exec(l, s0, acts).s, a)
  {
    assert (acts + [a])[..|acts|] == acts;
    forall k | 0 <= k < |acts| + 1
      ensures Exec(l, s0, (acts + [a])[..k]).Ok? ==> InBudget(Exec(l, s0, (acts + [a])[..k]).s, (acts + [a])[k])
    {
      if k < |acts| {
        assert (acts + [a])[..k] == acts[..k];
        assert Exec(l, s0, acts[..k]).Ok? ==> InBudget(Exec(l, s0, acts[..k]).s, acts[k]);
      }
    }
  }
}
