/** sleep and wakeup between any number of processes, one step at a time (proc.c:511-566, sleep1.p).

    One channel, with the spinlock `lk` that protects its condition.  ptable.lock may also be held on
    behalf of anything else in the kernel, and then a kill may make a sleeper runnable.  `ready` says of the
    shared data whether the condition that sleepers wait for holds. */
module SleepWakeup {
  import opened Options

  // Where a process is.  `owes`: it has made the condition true and not called wakeup since.
  datatype Pc =
    | Out(owes: bool)              // holds neither lock
    | Crit(owes: bool)             // holds lk
    | ToSleep                      // in sleep, holding lk, acquiring ptable.lock
    | Both                         // in sleep, holding both, about to release lk
    | Going                        // in sleep, holding ptable.lock, about to be SLEEPING
    | Asleep                       // SLEEPING on the channel
    | Woken                        // RUNNABLE again
    | Back                         // switched to, holding ptable.lock
    | Relock                       // acquiring lk again
    | ToWake(lk: bool)             // in wakeup, acquiring ptable.lock
    | Waking(k: nat, lk: bool)     // in wakeup1, holding ptable.lock, at slot k

  datatype Holder = Nobody | By(p: nat) | Elsewhere

  datatype Sys = Sys(data: int, lk: Option<nat>, table: Holder, pcs: seq<Pc>)

  datatype Action =
    | Acquire(p: nat) | Release(p: nat) | Change(p: nat, v: int)
    | Sleep(p: nat) | SleepLock(p: nat) | SleepRelease(p: nat) | SleepSched(p: nat)
    | Resume(p: nat) | Tidy(p: nat) | Reacquire(p: nat)
    | Wakeup(p: nat) | WakeLock(p: nat) | WakeScan(p: nat) | WakeDone(p: nat)
    | TableTaken | TableDropped | Kill(p: nat)

  predicate HoldsLk(pc: Pc) {
    pc.Crit? || pc.ToSleep? || pc.Both? || (pc.ToWake? && pc.lk) || (pc.Waking? && pc.lk)
  }

  predicate HoldsTable(pc: Pc) {
    pc.Both? || pc.Going? || pc.Back? || pc.Waking?
  }

  function At(s: Sys, p: nat, pc: Pc): Sys
    requires p < |s.pcs|
  {
    s.(pcs := s.pcs[p := pc])
  }

  // The state after one step, or None where the process cannot take it now.
  function Next(ready: int -> bool, s: Sys, a: Action): Option<Sys> {
    if !a.TableTaken? && !a.TableDropped? && a.p >= |s.pcs| then None
    else
      match a
      case Acquire(p) =>
        if s.pcs[p].Out? && s.lk.None? then Some(At(s, p, Crit(s.pcs[p].owes)).(lk := Option.Some(p))) else None
      case Release(p) =>
        if s.pcs[p].Crit? then Some(At(s, p, Out(s.pcs[p].owes)).(lk := None)) else None
      case Change(p, v) =>
        if s.pcs[p].Crit?
        then Some(At(s, p, Crit(s.pcs[p].owes || (!ready(s.data) && ready(v)))).(data := v)) else None
      case Sleep(p) =>
        if s.pcs[p] == Crit(false) && !ready(s.data) then Some(At(s, p, ToSleep)) else None
      case SleepLock(p) =>
        if s.pcs[p].ToSleep? && s.table.Nobody? then Some(At(s, p, Both).(table := By(p))) else None
      case SleepRelease(p) =>
        if s.pcs[p].Both? then Some(At(s, p, Going).(lk := None)) else None
      case SleepSched(p) =>
        if s.pcs[p].Going? then Some(At(s, p, Asleep).(table := Nobody)) else None
      case Resume(p) =>
        if s.pcs[p].Woken? && s.table.Nobody? then Some(At(s, p, Back).(table := By(p))) else None
      case Tidy(p) =>
        if s.pcs[p].Back? then Some(At(s, p, Relock).(table := Nobody)) else None
      case Reacquire(p) =>
        if s.pcs[p].Relock? && s.lk.None? then Some(At(s, p, Crit(false)).(lk := Option.Some(p))) else None
      case Wakeup(p) =>
        if s.pcs[p].Out? || s.pcs[p].Crit? then Some(At(s, p, ToWake(s.pcs[p].Crit?))) else None
      case WakeLock(p) =>
        if s.pcs[p].ToWake? && s.table.Nobody? then Some(At(s, p, Waking(0, s.pcs[p].lk)).(table := By(p))) else None
      case WakeScan(p) =>
        if s.pcs[p].Waking? && s.pcs[p].k < |s.pcs| then
          var k := s.pcs[p].k;
          var s1 := if s.pcs[k].Asleep? then At(s, k, Woken) else s;
          Some(At(s1, p, Waking(k + 1, s.pcs[p].lk)))
        else None
      case WakeDone(p) =>
        if s.pcs[p].Waking? && s.pcs[p].k >= |s.pcs|
        then Some(At(s, p, if s.pcs[p].lk then Crit(false) else Out(false)).(table := Nobody)) else None
      case TableTaken => if s.table.Nobody? then Some(s.(table := Elsewhere)) else None
      case TableDropped => if s.table.Elsewhere? then Some(s.(table := Nobody)) else None
      case Kill(p) =>
        if s.table.Elsewhere? then Some(if s.pcs[p].Asleep? then At(s, p, Woken) else s) else None
  }

  function Boot(n: nat, v: int): Sys {
    Sys(v, None, Nobody, seq(n, _ => Out(false)))
  }

  // The state after a list of steps by n processes; None if one of them was not possible.
  function Exec(ready: int -> bool, n: nat, v: int, acts: seq<Action>): Option<Sys> {
    if acts == [] then Some(Boot(n, v))
    else
      match Exec(ready, n, v, acts[..|acts| - 1])
      case None => None
      case Some(s) => Next(ready, s, acts[|acts| - 1])
  }

  /* ---- the invariant ---- */

  // q has a wakeup to do that will still reach slot p.
  predicate WillWake(s: Sys, q: nat, p: nat)
    requires q < |s.pcs|
  {
    match s.pcs[q]
    case Out(owes) => owes
    case Crit(owes) => owes
    case ToWake(_) => true
    case Waking(k, _) => k <= p
    case _ => false
  }

  ghost predicate Pending(s: Sys, p: nat) {
    exists q | 0 <= q < |s.pcs| :: WillWake(s, q, p)
  }

  ghost predicate LocksOk(s: Sys, p: nat)
    requires p < |s.pcs|
  {
    (HoldsLk(s.pcs[p]) <==> s.lk == Some(p)) && (HoldsTable(s.pcs[p]) <==> s.table == By(p))
  }

  ghost predicate SleeperOk(ready: int -> bool, s: Sys, p: nat)
    requires p < |s.pcs|
  {
    match s.pcs[p]
    case ToSleep => !ready(s.data)
    case Both => !ready(s.data)
    case Going => ready(s.data) ==> Pending(s, p)
    case Asleep => ready(s.data) ==> Pending(s, p)
    case _ => true
  }

  ghost predicate Inv(ready: int -> bool, s: Sys) {
    && (forall p | 0 <= p < |s.pcs| :: LocksOk(s, p))
    && (forall p | 0 <= p < |s.pcs| :: SleeperOk(ready, s, p))
    && (s.lk.Some? ==> s.lk.value < |s.pcs|) && (s.table.By? ==> s.table.p < |s.pcs|)
  }

  // A wakeup that was due is still due, unless the step carried it out.
  lemma StillPending(ready: int -> bool, s: Sys, a: Action, p: nat)
    requires Inv(ready, s) && Next(ready, s, a).Some? && p < |s.pcs| && Pending(s, p)
    requires Next(ready, s, a).value.pcs[p].Going? || Next(ready, s, a).value.pcs[p].Asleep?
    ensures Pending(Next(ready, s, a).value, p)
  {
    var s' := Next(ready, s, a).value;
    var q :| 0 <= q < |s.pcs| && WillWake(s, q, p);
    assert LocksOk(s, p) && LocksOk(s, q);
    assert WillWake(s', q, p);
  }

  lemma LocksKept(ready: int -> bool, s: Sys, a: Action, p: nat)
    requires Inv(ready, s) && Next(ready, s, a).Some? && p < |s.pcs|
    ensures LocksOk(Next(ready, s, a).value, p)
  {
    assert LocksOk(s, p);
    assert !a.TableTaken? && !a.TableDropped? ==> LocksOk(s, a.p);
  }

  lemma NextKeeps(ready: int -> bool, s: Sys, a: Action)
    requires Inv(ready, s) && Next(ready, s, a).Some?
    ensures Inv(ready, Next(ready, s, a).value)
  {
    var s' := Next(ready, s, a).value;
    assert !a.TableTaken? && !a.TableDropped? ==> LocksOk(s, a.p) && SleeperOk(ready, s, a.p);
    forall p | 0 <= p < |s'.pcs|
      ensures LocksOk(s', p) && SleeperOk(ready, s', p)
    {
      LocksKept(ready, s, a, p);
      assert LocksOk(s, p) && SleeperOk(ready, s, p);
      if (s'.pcs[p].Going? || s'.pcs[p].Asleep?) && ready(s'.data) {
        if a.Change? && !ready(s.data) {
          assert WillWake(s', a.p, p);
        } else {
          StillPending(ready, s, a, p);
        }
      }
    }
  }

  /** In every run, locks have one holder, and whoever sleeps (or is about to) while the condition holds has
      a wakeup coming. */
  lemma {:induction false} EveryRun(ready: int -> bool, n: nat, v: int, acts: seq<Action>)
    requires Exec(ready, n, v, acts).Some?
    ensures Inv(ready, Exec(ready, n, v, acts).value)
  {
    if acts != [] {
      var k := |acts| - 1;
      EveryRun(ready, n, v, acts[..k]);
      NextKeeps(ready, Exec(ready, n, v, acts[..k]).value, acts[k]);
    }
  }

  /** No lost wakeup. */
  lemma NoLostWakeup(ready: int -> bool, n: nat, v: int, acts: seq<Action>, p: nat)
    requires Exec(ready, n, v, acts).Some? && p < |Exec(ready, n, v, acts).value.pcs|
    requires Exec(ready, n, v, acts).value.pcs[p] == Asleep
    ensures var s := Exec(ready, n, v, acts).value; !ready(s.data) || exists q | 0 <= q < |s.pcs| :: WillWake(s, q, p)
  {
    EveryRun(ready, n, v, acts);
    assert SleeperOk(ready, Exec(ready, n, v, acts).value, p);
  }

  /* ---- progress ---- */

  // Nothing under way: every process is outside with no wakeup to do, or asleep.
  predicate Quiet(pc: Pc) {
    pc == Out(false) || pc == Asleep
  }

  // The holder of ptable.lock can always go on.
  lemma TableMoves(ready: int -> bool, s: Sys) returns (a: Action)
    requires Inv(ready, s) && s.table != Nobody
    ensures Next(ready, s, a).Some? && !a.Change? && !a.TableTaken?
  {
    if s.table.Elsewhere? {
      a := TableDropped;
    } else {
      var p := s.table.p;
      assert LocksOk(s, p);
      a := if s.pcs[p].Both? then SleepRelease(p)
      else if s.pcs[p].Going? then SleepSched(p)
      else if s.pcs[p].Back? then Tidy(p)
      else if s.pcs[p].k < |s.pcs| then WakeScan(p)
      else WakeDone(p);
    }
  }

  // So can the holder of lk, if need be after the holder of ptable.lock.
  lemma LkMoves(ready: int -> bool, s: Sys) returns (a: Action)
    requires Inv(ready, s) && s.lk.Some?
    ensures Next(ready, s, a).Some? && !a.Change? && !a.TableTaken?
  {
    var p := s.lk.value;
    assert LocksOk(s, p);
    if s.table != Nobody {
      a := TableMoves(ready, s);
    } else {
      a := match s.pcs[p]
        case Crit(_) => Release(p)
        case ToSleep => SleepLock(p)
        case _ => WakeLock(p);
    }
  }

  /** The two locks cannot deadlock: as long as some process is in mid-operation, some process can step
      without changing the data. */
  lemma Progress(ready: int -> bool, s: Sys, p: nat) returns (a: Action)
    requires Inv(ready, s) && p < |s.pcs| && !Quiet(s.pcs[p])
    ensures Next(ready, s, a).Some? && !a.Change? && !a.TableTaken?
  {
    assert LocksOk(s, p);
    if s.table != Nobody {
      a := TableMoves(ready, s);
    } else if s.lk.Some? {
      a := LkMoves(ready, s);
    } else {
      a := match s.pcs[p]
        case Out(_) => Wakeup(p)
        case Woken => Resume(p)
        case Relock => Reacquire(p)
        case _ => WakeLock(p);
    }
  }

  /** When everything has come to rest, nobody sleeps on a condition that holds. */
  lemma AtRest(ready: int -> bool, n: nat, v: int, acts: seq<Action>, p: nat)
    requires Exec(ready, n, v, acts).Some? && p < |Exec(ready, n, v, acts).value.pcs|
    requires forall q | 0 <= q < |Exec(ready, n, v, acts).value.pcs| :: Quiet(Exec(ready, n, v, acts).value.pcs[q])
    ensures Exec(ready, n, v, acts).value.pcs[p] == Asleep ==> !ready(Exec(ready, n, v, acts).value.data)
  {
    EveryRun(ready, n, v, acts);
    assert SleeperOk(ready, Exec(ready, n, v, acts).value, p);
  }

  /* ---- a wakeup reaches everyone ---- */

  // Scanning from where p stands to the end of the table.
  function Scans(p: nat, n: nat): seq<Action> {
    seq(n, _ => WakeScan(p))
  }

  function Steps(ready: int -> bool, s: Sys, acts: seq<Action>): Option<Sys>
    decreases |acts|
  {
    if acts == [] then Some(s)
    else
      match Next(ready, s, acts[0])
      case None => None
      case Some(s1) => Steps(ready, s1, acts[1..])
  }

  /** A wakeup that has started makes every sleeper it has not passed yet runnable, and nobody can fall asleep
      meanwhile. */
  lemma {:induction false} WakeupReaches(ready: int -> bool, s: Sys, p: nat)
    requires p < |s.pcs| && s.pcs[p].Waking? && s.pcs[p].k <= |s.pcs|
    ensures var r := Steps(ready, s, Scans(p, |s.pcs| - s.pcs[p].k));
            && r.Some? && |r.value.pcs| == |s.pcs| && r.value.pcs[p] == Waking(|s.pcs|, s.pcs[p].lk)
            && forall q | 0 <= q < |s.pcs| && q != p ::
                 r.value.pcs[q] == if q >= s.pcs[p].k && s.pcs[q].Asleep? then Woken else s.pcs[q]
    decreases |s.pcs| - s.pcs[p].k
  {
    var n := |s.pcs| - s.pcs[p].k;
    if n > 0 {
      var s1 := Next(ready, s, WakeScan(p)).value;
      assert Scans(p, n)[1..] == Scans(p, n - 1);
      WakeupReaches(ready, s1, p);
    }
  }
}

/** Sleep locks, as a client of sleep and wakeup (sleeplock.c:21-42).  The data is the field `locked`.  Leaving
    acquiresleep's loop, setting `locked` and setting `pid` are separate steps, and so are releasesleep's two
    assignments; any other process may step in between. */
module SleepLocks {
  import opened Options
  import opened SleepWakeup

  // Where a process is inside the critical section: nowhere in particular, past the loop having seen the lock free,
  // past `locked = 1`, or past `locked = 0`.
  datatype Spot = NoSpot | SawFree | SetLocked | Unlocked

  // `has`: the processes past `locked = 1` and not yet at `locked = 0`.
  datatype Lock = Lock(s: Sys, pid: nat, has: set<nat>, spot: seq<Spot>)

  datatype Op = See(p: nat) | Take(p: nat) | Name(p: nat) | Give(p: nat) | Unname(p: nat) | Step(a: Action)

  const FREE: int -> bool := v => v == 0

  // The process whose code an action is; none for what the rest of the kernel does.
  function Actor(a: Action): Option<nat> {
    if a.TableTaken? || a.TableDropped? || a.Kill? then None else Some(a.p)
  }

  predicate IsAt(l: Lock, p: nat, spot: Spot) {
    p < |l.s.pcs| == |l.spot| && l.spot[p] == spot
  }

  function Set(l: Lock, p: nat, v: int): Sys
    requires p < |l.s.pcs| && l.s.pcs[p].Crit?
  {
    Next(FREE, l.s, Change(p, v)).value
  }

  function NextOp(l: Lock, op: Op): Option<Lock> {
    match op
    case See(p) =>
      if IsAt(l, p, NoSpot) && l.s.pcs[p] == Crit(false) && FREE(l.s.data)
      then Some(l.(spot := l.spot[p := SawFree])) else None
    case Take(p) =>
      if IsAt(l, p, SawFree) && l.s.pcs[p].Crit?
      then Some(l.(s := Set(l, p, 1), has := l.has + {p}, spot := l.spot[p := SetLocked])) else None
    case Name(p) =>
      if IsAt(l, p, SetLocked) then Some(l.(pid := p + 1, spot := l.spot[p := NoSpot])) else None
    case Give(p) =>
      if IsAt(l, p, NoSpot) && l.s.pcs[p].Crit? && p in l.has
      then Some(l.(s := Set(l, p, 0), has := l.has - {p}, spot := l.spot[p := Unlocked])) else None
    case Unname(p) =>
      if IsAt(l, p, Unlocked) then Some(l.(pid := 0, spot := l.spot[p := NoSpot])) else None
    case Step(a) =>
      // a process between two of the statements above does nothing else
      if a.Change? || (Actor(a).Some? && !IsAt(l, a.p, NoSpot)) then None
      else
        match Next(FREE, l.s, a)
        case None => None
        case Some(s) => Some(l.(s := s))
  }

  function ExecOps(n: nat, ops: seq<Op>): Option<Lock> {
    if ops == [] then Some(Lock(Boot(n, 0), 0, {}, seq(n, _ => NoSpot)))
    else
      match ExecOps(n, ops[..|ops| - 1])
      case None => None
      case Some(l) => NextOp(l, ops[|ops| - 1])
  }

  // What the critical section guarantees to a process in the middle of it.
  ghost predicate SpotOk(l: Lock, p: nat)
    requires p < |l.s.pcs| == |l.spot|
  {
    match l.spot[p]
    case NoSpot => p in l.has ==> l.pid == p + 1
    case SawFree => l.s.pcs[p].Crit? && l.s.data == 0
    case SetLocked => l.s.pcs[p].Crit? && p in l.has
    case Unlocked => l.s.pcs[p].Crit? && l.s.data == 0
  }

  ghost predicate HoldersOk(l: Lock) {
    && |l.spot| == |l.s.pcs| && (l.s.data == 0 || l.s.data == 1)
    && (l.s.data == 0 <==> l.has == {})
    && (forall p, q | p in l.has && q in l.has :: p == q)
    && (forall p | p in l.has :: p < |l.s.pcs|)
  }

  ghost predicate HolderOk(l: Lock) {
    HoldersOk(l) && forall p | 0 <= p < |l.spot| :: SpotOk(l, p)
  }

  // The step of sleep and wakeup that an operation on the lock is, if it is one.
  function Plain(op: Op): Option<Action> {
    match op
    case Take(p) => Some(Change(p, 1))
    case Give(p) => Some(Change(p, 0))
    case Step(a) => Some(a)
    case _ => None
  }

  // While p is inside the critical section nobody else is.
  lemma Exclusive(l: Lock, p: nat, q: nat)
    requires Inv(FREE, l.s) && p < |l.s.pcs| && q < |l.s.pcs| && l.s.pcs[p].Crit? && l.s.pcs[q].Crit?
    ensures p == q
  {
    assert LocksOk(l.s, p) && LocksOk(l.s, q);
  }

  lemma SpotKept(l: Lock, op: Op, p: nat)
    requires Inv(FREE, l.s) && HolderOk(l) && NextOp(l, op).Some? && p < |l.spot|
    ensures |NextOp(l, op).value.spot| == |NextOp(l, op).value.s.pcs| == |l.spot| && SpotOk(NextOp(l, op).value, p)
  {
    assert SpotOk(l, p);
    if !op.Step? {
      assert SpotOk(l, op.p);
      if l.s.pcs[p].Crit? && l.s.pcs[op.p].Crit? { Exclusive(l, p, op.p); }
    }
  }

  lemma HoldersKept(l: Lock, op: Op)
    requires HolderOk(l) && NextOp(l, op).Some?
    ensures HoldersOk(NextOp(l, op).value)
  {
    assert !op.Step? ==> SpotOk(l, op.p);
    assert op.Give? ==> op.p in l.has && l.has - {op.p} == {};
  }

  lemma NextOpKeeps(l: Lock, op: Op)
    requires Inv(FREE, l.s) && HolderOk(l) && NextOp(l, op).Some?
    ensures Inv(FREE, NextOp(l, op).value.s) && HolderOk(NextOp(l, op).value)
  {
    if Plain(op).Some? { NextKeeps(FREE, l.s, Plain(op).value); }
    HoldersKept(l, op);
    forall p | 0 <= p < |l.spot| ensures SpotOk(NextOp(l, op).value, p) { SpotKept(l, op, p); }
  }

  lemma {:induction false} EveryLockRun(n: nat, ops: seq<Op>)
    requires ExecOps(n, ops).Some?
    ensures Inv(FREE, ExecOps(n, ops).value.s) && HolderOk(ExecOps(n, ops).value)
  {
    if ops == [] {
      EveryRun(FREE, n, 0, []);
    } else {
      var k := |ops| - 1;
      EveryLockRun(n, ops[..k]);
      NextOpKeeps(ExecOps(n, ops[..k]).value, ops[k]);
    }
  }

  /** In every run at most one process is between acquiresleep and releasesleep, and `pid` names it. */
  lemma MutualExclusion(n: nat, ops: seq<Op>, p: nat, q: nat)
    requires ExecOps(n, ops).Some? && p in ExecOps(n, ops).value.has && q in ExecOps(n, ops).value.has
    ensures p == q
    ensures p < |ExecOps(n, ops).value.spot|
    ensures ExecOps(n, ops).value.spot[p] == NoSpot ==> ExecOps(n, ops).value.pid == p + 1
  {
    EveryLockRun(n, ops);
    assert SpotOk(ExecOps(n, ops).value, p);
  }

  /** In every run a process waiting for the lock waits for a holder, or has a wakeup coming. */
  lemma WaitsForHolder(n: nat, ops: seq<Op>, p: nat)
    requires ExecOps(n, ops).Some? && p < |ExecOps(n, ops).value.s.pcs| && ExecOps(n, ops).value.s.pcs[p] == Asleep
    ensures ExecOps(n, ops).value.has != {} || Pending(ExecOps(n, ops).value.s, p)
  {
    EveryLockRun(n, ops);
    assert SleeperOk(FREE, ExecOps(n, ops).value.s, p);
  }
}

/** The queue of sleep1.p, with any number of producers, consumers and rounds.  The count is read into a local
    variable and written back in a later step, as there (sleep1.p:106, 124). */
module ProducerConsumer {
  import opened Options
  import opened SleepWakeup

  // What a process in mid-update has read, and whether it will store one more or one less.
  datatype Local = Nothing | More(x: int) | Less(x: int)

  datatype Queue = Queue(s: Sys, made: nat, taken: nat, local: seq<Local>)

  datatype Op = LoadToMake(p: nat) | LoadToTake(p: nat) | Store(p: nat) | Step(a: Action)

  const SOME_LEFT: int -> bool := v => v > 0

  predicate InCrit(q: Queue, p: nat) {
    p < |q.s.pcs| == |q.local| && q.s.pcs[p].Crit?
  }

  // The process whose code an action is.
  predicate Busy(q: Queue, a: Action) {
    !a.TableTaken? && !a.TableDropped? && !a.Kill? && a.p < |q.local| && q.local[a.p] != Nothing
  }

  function Stored(local: Local): int {
    match local
    case Nothing => 0
    case More(x) => x + 1
    case Less(x) => x - 1
  }

  function NextOp(q: Queue, op: Op): Option<Queue> {
    match op
    case LoadToMake(p) =>
      if InCrit(q, p) && q.local[p] == Nothing then Some(q.(local := q.local[p := More(q.s.data)])) else None
    case LoadToTake(p) =>
      // a consumer goes on only once there is something to take
      if InCrit(q, p) && q.local[p] == Nothing && SOME_LEFT(q.s.data)
      then Some(q.(local := q.local[p := Less(q.s.data)])) else None
    case Store(p) =>
      if InCrit(q, p) && q.local[p] != Nothing then
        Some(Queue(Next(SOME_LEFT, q.s, Change(p, Stored(q.local[p]))).value,
                   q.made + (if q.local[p].More? then 1 else 0), q.taken + (if q.local[p].Less? then 1 else 0),
                   q.local[p := Nothing]))
      else None
    case Step(a) =>
      if a.Change? || Busy(q, a) then None
      else
        match Next(SOME_LEFT, q.s, a)
        case None => None
        case Some(s) => Some(q.(s := s))
  }

  function ExecOps(n: nat, ops: seq<Op>): Option<Queue> {
    if ops == [] then Some(Queue(Boot(n, 0), 0, 0, seq(n, _ => Nothing)))
    else
      match ExecOps(n, ops[..|ops| - 1])
      case None => None
      case Some(q) => NextOp(q, ops[|ops| - 1])
  }

  // What a process has read is still the count.
  ghost predicate LocalOk(q: Queue, p: nat)
    requires p < |q.s.pcs| == |q.local|
  {
    && (q.local[p] != Nothing ==> q.s.pcs[p].Crit? && q.local[p].x == q.s.data)
    && (q.local[p].Less? ==> q.s.data > 0)
  }

  ghost predicate CountOk(q: Queue) {
    && |q.local| == |q.s.pcs| && q.s.data == q.made - q.taken >= 0
    && forall p | 0 <= p < |q.local| :: LocalOk(q, p)
  }

  lemma LocalKept(q: Queue, op: Op, p: nat)
    requires Inv(SOME_LEFT, q.s) && CountOk(q) && NextOp(q, op).Some? && p < |q.local|
    ensures |NextOp(q, op).value.local| == |NextOp(q, op).value.s.pcs| == |q.local| && LocalOk(NextOp(q, op).value, p)
  {
    assert LocalOk(q, p) && LocksOk(q.s, p);
    assert !op.Step? ==> LocalOk(q, op.p) && LocksOk(q.s, op.p);
  }

  lemma NextOpKeeps(q: Queue, op: Op)
    requires Inv(SOME_LEFT, q.s) && CountOk(q) && NextOp(q, op).Some?
    ensures Inv(SOME_LEFT, NextOp(q, op).value.s) && CountOk(NextOp(q, op).value)
  {
    if op.Step? {
      NextKeeps(SOME_LEFT, q.s, op.a);
    } else if op.Store? {
      assert LocalOk(q, op.p);
      NextKeeps(SOME_LEFT, q.s, Change(op.p, Stored(q.local[op.p])));
    }
    forall p | 0 <= p < |q.local| ensures LocalOk(NextOp(q, op).value, p) { LocalKept(q, op, p); }
  }

  /** No update of the count is lost: in every run it is what was made less what was taken, and never negative. */
  lemma {:induction false} EveryQueueRun(n: nat, ops: seq<Op>)
    requires ExecOps(n, ops).Some?
    ensures Inv(SOME_LEFT, ExecOps(n, ops).value.s) && CountOk(ExecOps(n, ops).value)
  {
    if ops == [] {
      EveryRun(SOME_LEFT, n, 0, []);
    } else {
      var k := |ops| - 1;
      EveryQueueRun(n, ops[..k]);
      NextOpKeeps(ExecOps(n, ops[..k]).value, ops[k]);
    }
  }

  /** Once everything is at rest, a consumer is still asleep only if all that was made has been taken. */
  lemma ConsumersDrain(n: nat, ops: seq<Op>, p: nat)
    requires ExecOps(n, ops).Some? && p < |ExecOps(n, ops).value.s.pcs| && ExecOps(n, ops).value.s.pcs[p] == Asleep
    requires forall q | 0 <= q < |ExecOps(n, ops).value.s.pcs| :: Quiet(ExecOps(n, ops).value.s.pcs[q])
    ensures ExecOps(n, ops).value.taken == ExecOps(n, ops).value.made
  {
    EveryQueueRun(n, ops);
    assert SleeperOk(SOME_LEFT, ExecOps(n, ops).value.s, p);
  }
}
