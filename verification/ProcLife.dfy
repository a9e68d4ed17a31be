/** The life of processes: fork, exit, wait, kill and wakeup over the process table
    (proc.c:41-91, 153-289, 551-588).

    Every stretch of code that holds ptable.lock is one step; fork, which takes the lock twice and works
    without it in between, is three.  Any number of CPUs may be running processes. */
module ProcTable {
  import opened Options
  import opened ProcStates

  // A sleeper's channel: none, the address of a table slot, or anything else.
  datatype Chan = NoChan | OnProc(slot: nat) | OnOther(addr: nat)

  datatype Proc = Proc(state: State, pid: nat, parent: Option<nat>, chan: Chan, killed: bool)

  type Table = seq<Proc>

  const INIT: nat := 0

  predicate Active(p: Proc) {
    p.state.Sleeping? || p.state.Runnable? || p.state.Running?
  }

  predicate IsSleepingOn(p: Proc, c: Chan) {
    p.state.Sleeping? && p.chan == c
  }

  function Woken(p: Proc, c: Chan): Proc {
    if IsSleepingOn(p, c) then p.(state := Runnable) else p
  }

  // What wakeup1 makes of the table.
  function WakeAll(t: Table, c: Chan): (u: Table)
    ensures |u| == |t|
  {
    seq(|t|, i requires 0 <= i < |t| => Woken(t[i], c))
  }

  predicate ChildOf(p: Proc, q: nat) {
    p.parent == Some(q)
  }

  predicate ZombieChildOf(p: Proc, q: nat) {
    ChildOf(p, q) && p.state.Zombie?
  }

  predicate HasZombie(t: Table, q: nat) {
    exists i | 0 <= i < |t| :: ZombieChildOf(t[i], q)
  }

  // The first n children of q belong to init.
  function Adopted(t: Table, q: nat, n: nat): (u: Table)
    ensures |u| == |t|
  {
    seq(|t|, i requires 0 <= i < |t| => if i < n && ChildOf(t[i], q) then t[i].(parent := Some(INIT)) else t[i])
  }

  // What exit makes of the table.
  function ExitTable(t: Table, q: nat): (u: Table)
    requires q < |t| && t[q].parent.Some?
    ensures |u| == |t|
  {
    var t1 := WakeAll(t, OnProc(t[q].parent.value));
    var t2 := Adopted(t1, q, |t|);
    var t3 := if HasZombie(t1, q) then WakeAll(t2, OnProc(INIT)) else t2;
    t3[q := t3[q].(state := Zombie)]
  }

  // The first slot that satisfies f.
  function First(t: Table, f: Proc -> bool): (r: Option<nat>)
    ensures r.Some? ==> r.value < |t| && f(t[r.value]) && forall i | 0 <= i < r.value :: !f(t[i])
    ensures r.None? ==> forall i | 0 <= i < |t| :: !f(t[i])
  {
    if t == [] then None
    else
      match First(t[..|t| - 1], f)
      case Some(i) => Some(i)
      case None => if f(t[|t| - 1]) then Some(|t| - 1) else None
  }

  function FreeSlot(t: Table): Option<nat> {
    First(t, (p: Proc) => p.state.Unused?)
  }

  function ToReap(t: Table, q: nat): Option<nat> {
    First(t, (p: Proc) => ZombieChildOf(p, q))
  }

  function WithPid(t: Table, pid: nat): Option<nat> {
    First(t, (p: Proc) => p.pid == pid)
  }

  function Killed(p: Proc): Proc {
    p.(killed := true, state := if p.state.Sleeping? then Runnable else p.state)
  }

  predicate Childless(t: Table, q: nat) {
    forall i | 0 <= i < |t| :: !ChildOf(t[i], q)
  }

  const REAPED: Proc := Proc(Unused, 0, None, NoChan, false)

  predicate SameStanding(p: Proc, q: Proc) {
    (Active(p) <==> Active(q)) && (Active(p) || p.state == q.state)
  }

  // What exit does to a slot.
  lemma ExitSlot(t: Table, q: nat, i: nat)
    requires q < |t| && t[q].parent.Some? && i < |t|
    ensures var p, p' := t[i], ExitTable(t, q)[i];
            && p'.pid == p.pid && p'.chan == p.chan && p'.killed == p.killed
            && p'.parent == (if p.parent == Some(q) then Some(INIT) else p.parent)
            && (i == q ==> p'.state.Zombie?)
            && (i != q ==> SameStanding(p, p'))
            && var woken := IsSleepingOn(p, OnProc(t[q].parent.value))
                   || (IsSleepingOn(p, OnProc(INIT)) && HasZombie(t, q));
            i != q ==> p'.state == if woken then Runnable else p.state
  {
    var t1 := WakeAll(t, OnProc(t[q].parent.value));
    if HasZombie(t, q) {
      var z :| 0 <= z < |t| && ZombieChildOf(t[z], q);
      assert ZombieChildOf(t1[z], q);
    }
    if HasZombie(t1, q) {
      var z :| 0 <= z < |t| && ZombieChildOf(t1[z], q);
      assert ZombieChildOf(t[z], q);
    }
  }

  lemma ExitStanding(t: Table, q: nat, i: nat)
    requires q < |t| && t[q].parent.Some? && i < |t| && i != q
    ensures var p, p' := t[i], ExitTable(t, q)[i];
            && p'.pid == p.pid && SameStanding(p, p')
            && p'.parent == if p.parent == Some(q) then Some(INIT) else p.parent
  {
    ExitSlot(t, q, i);
  }

  // The same, in full.
  lemma ExitSlots(t: Table, q: nat)
    requires q < |t| && t[q].parent.Some?
    ensures var t' := ExitTable(t, q); t'[q].state.Zombie? && forall j | 0 <= j < |t| ::
              var p, p' := t[j], t'[j];
              && p'.pid == p.pid && p'.chan == p.chan && p'.killed == p.killed
              && p'.parent == if p.parent == Some(q) then Some(0) else p.parent
    ensures var t' := ExitTable(t, q); forall j | 0 <= j < |t| && j != q ::
              var p, p' := t[j], t'[j];
              var up := p.state.Sleeping? && p.chan == OnProc(t[q].parent.value);
              var init := p.state.Sleeping? && p.chan == OnProc(0)
                          && exists z | 0 <= z < |t| :: t[z].parent == Some(q) && t[z].state.Zombie?;
              p'.state == if up || init then Runnable else p.state
  {
    ExitSlot(t, q, q);
    assert HasZombie(t, q) <==> exists z | 0 <= z < |t| :: t[z].parent == Some(q) && t[z].state.Zombie?;
    forall j | 0 <= j < |t|
      ensures var p, p' := t[j], ExitTable(t, q)[j];
              && p'.pid == p.pid && p'.chan == p.chan && p'.killed == p.killed
              && p'.parent == (if p.parent == Some(q) then Some(INIT) else p.parent)
              && var woken := IsSleepingOn(p, OnProc(t[q].parent.value))
                     || (IsSleepingOn(p, OnProc(INIT)) && HasZombie(t, q));
              j != q ==> p'.state == if woken then Runnable else p.state
    {
      ExitSlot(t, q, j);
    }
  }

  /* ---- the code ---- */

  datatype WaitResult = Reaped(pid: nat) | NoChildren | MustSleep

  class Ptable {
    var procs: Table
    var nextpid: nat

    constructor (n: nat)
      ensures procs == seq(n, _ => REAPED) && nextpid == 1
    {
      procs := seq(n, _ => REAPED);
      nextpid := 1;
    }

    // allocproc up to the release of ptable.lock.
    method Allocproc() returns (r: Option<nat>)
      modifies this
      ensures r.None? <==> forall i | 0 <= i < |old(procs)| :: !old(procs)[i].state.Unused?
      ensures r.Some? ==> r.value < |old(procs)| && old(procs)[r.value].state.Unused?
      ensures r.Some? ==> forall i | 0 <= i < r.value :: !old(procs)[i].state.Unused?
      ensures r.None? ==> unchanged(this)
      ensures r.Some? ==> nextpid == old(nextpid) + 1
      ensures r.Some? ==> procs == old(procs)[r.value := old(procs[r.value]).(state := Embryo, pid := old(nextpid))]
    {
      var i := 0;
      while i < |procs|
        invariant 0 <= i <= |procs| && unchanged(this) && forall j | 0 <= j < i :: !procs[j].state.Unused?
      {
        if procs[i].state.Unused? {
          procs := procs[i := procs[i].(state := Embryo, pid := nextpid)];
          nextpid := nextpid + 1;
          return Some(i);
        }
        i := i + 1;
      }
      return None;
    }

    method Wakeup1(c: Chan)
      modifies this`procs
      ensures procs == WakeAll(old(procs), c)
      ensures |procs| == |old(procs)| && forall j | 0 <= j < |procs| ::
        var p := old(procs)[j]; procs[j] == if p.state.Sleeping? && p.chan == c then p.(state := Runnable) else p
    {
      var i := 0;
      while i < |procs|
        invariant 0 <= i <= |procs| == old(|procs|)
        invariant forall j | 0 <= j < |procs| :: procs[j] == if j < i then Woken(old(procs[j]), c) else old(procs[j])
      {
        if procs[i].state.Sleeping? && procs[i].chan == c {
          procs := procs[i := procs[i].(state := Runnable)];
        }
        i := i + 1;
      }
    }

    // exit from the moment it holds ptable.lock.
    method Exit(q: nat)
      requires q < |procs| && procs[q].parent.Some?
      modifies this`procs
      ensures procs == ExitTable(old(procs), q)
      ensures |procs| == |old(procs)| && procs[q].state.Zombie?
      ensures forall j | 0 <= j < |procs| ::
        var p, p' := old(procs)[j], procs[j];
        && p'.pid == p.pid && p'.chan == p.chan && p'.killed == p.killed
        && p'.parent == if p.parent == Some(q) then Some(0) else p.parent
      ensures forall j | 0 <= j < |procs| && j != q ::
        var p, p' := old(procs)[j], procs[j];
        var up := p.state.Sleeping? && p.chan == OnProc(old(procs)[q].parent.value);
        var init := p.state.Sleeping? && p.chan == OnProc(0)
                    && exists z | 0 <= z < |old(procs)| ::
                         old(procs)[z].parent == Some(q) && old(procs)[z].state.Zombie?;
        p'.state == if up || init then Runnable else p.state
    {
      Wakeup1(OnProc(procs[q].parent.value));
      PassChildren(q);
      procs := procs[q := procs[q].(state := Zombie)];
      ExitSlots(old(procs), q);
    }

    // proc.c:233-240: abandoned children go to init, which is woken if one of them is a zombie.
    method PassChildren(q: nat)
      modifies this`procs
      ensures var t := Adopted(old(procs), q, |old(procs)|);
              procs == if HasZombie(old(procs), q) then WakeAll(t, OnProc(INIT)) else t
    {
      ghost var t1 := procs;
      var i := 0;
      ghost var woke := false;
      while i < |procs|
        invariant 0 <= i <= |procs| == |t1|
        invariant woke <==> exists j | 0 <= j < i :: ZombieChildOf(t1[j], q)
        invariant procs == if woke then WakeAll(Adopted(t1, q, i), OnProc(INIT)) else Adopted(t1, q, i)
      {
        if procs[i].parent == Some(q) {
          procs := procs[i := procs[i].(parent := Some(INIT))];
          if procs[i].state.Zombie? {
            Wakeup1(OnProc(INIT));
            woke := true;
          }
        }
        assert Adopted(t1, q, i + 1) ==
          if ChildOf(t1[i], q) then Adopted(t1, q, i)[i := t1[i].(parent := Some(INIT))] else Adopted(t1, q, i);
        i := i + 1;
      }
    }

    // One pass of wait's loop, holding ptable.lock.
    method WaitScan(q: nat) returns (r: WaitResult, ghost z: nat)
      requires q < |procs|
      modifies this`procs
      ensures r.Reaped? <==>
        exists i | 0 <= i < |old(procs)| :: old(procs)[i].parent == Some(q) && old(procs)[i].state.Zombie?
      ensures r.Reaped? ==> z < |old(procs)| && old(procs)[z].parent == Some(q) && old(procs)[z].state.Zombie?
      ensures r.Reaped? ==> forall i | 0 <= i < z :: !(old(procs)[i].parent == Some(q) && old(procs)[i].state.Zombie?)
      ensures r.Reaped? ==> r.pid == old(procs)[z].pid
      ensures r.Reaped? ==> procs == old(procs)[z := Proc(Unused, 0, None, old(procs)[z].chan, false)]
      ensures r.NoChildren? <==>
        !r.Reaped? && (old(procs[q].killed) || forall i | 0 <= i < |old(procs)| :: old(procs)[i].parent != Some(q))
      ensures r.NoChildren? ==> unchanged(this)
      ensures r.MustSleep? ==> procs == old(procs)[q := old(procs[q]).(state := Sleeping, chan := OnProc(q))]
    {
      z := 0;
      var havekids, i := false, 0;
      while i < |procs|
        invariant 0 <= i <= |procs| && unchanged(this)
        invariant havekids <==> exists j | 0 <= j < i :: ChildOf(procs[j], q)
        invariant forall j | 0 <= j < i :: !ZombieChildOf(procs[j], q)
      {
        if procs[i].parent == Some(q) {
          havekids := true;
          if procs[i].state.Zombie? {
            r, z := Reaped(procs[i].pid), i;
            procs := procs[i := Proc(Unused, 0, None, procs[i].chan, false)];
            return;
          }
        }
        i := i + 1;
      }
      if !havekids || procs[q].killed { return NoChildren, 0; }
      procs := procs[q := procs[q].(state := Sleeping, chan := OnProc(q))];
      return MustSleep, 0;
    }

    /** kill: the first slot with the pid, k, is marked and no longer sleeps; nothing else changes. */
    method Kill(pid: nat) returns (ok: bool, ghost k: nat)
      modifies this`procs
      ensures ok <==> exists i | 0 <= i < |old(procs)| :: old(procs)[i].pid == pid
      ensures !ok ==> unchanged(this)
      ensures ok ==> k < |old(procs)| && old(procs)[k].pid == pid && forall i | 0 <= i < k :: old(procs)[i].pid != pid
      ensures ok ==> |procs| == |old(procs)| && forall i | 0 <= i < |procs| && i != k :: procs[i] == old(procs)[i]
      ensures ok ==> procs[k].killed && procs[k].pid == pid
      ensures ok ==> procs[k].parent == old(procs)[k].parent && procs[k].chan == old(procs)[k].chan
      ensures ok ==> procs[k].state == if old(procs)[k].state.Sleeping? then Runnable else old(procs)[k].state
    {
      k := 0;
      var i := 0;
      while i < |procs|
        invariant 0 <= i <= |procs| && unchanged(this) && forall j | 0 <= j < i :: procs[j].pid != pid
      {
        if procs[i].pid == pid {
          procs := procs[i := procs[i].(killed := true)];
          if procs[i].state.Sleeping? {
            procs := procs[i := procs[i].(state := Runnable)];
          }
          return true, i;
        }
        i := i + 1;
      }
      return false, 0;
    }
  }
}

/** What every run of those operations keeps. */
module ProcLife {
  import opened Options
  import opened ProcStates
  import opened ProcTable

  // `making`: the slot a process in fork has allocated.  `born`: the pids fork has returned, and `reaped`: the
  // pids wait has returned, in order.
  datatype Sys = Sys(procs: Table, nextpid: nat, making: seq<Option<nat>>, born: set<nat>, reaped: seq<nat>)

  datatype Action =
    | Alloc(p: nat) | ForkFails(p: nat) | SetParent(p: nat) | ForkDone(p: nat)
    | Exit(p: nat) | Wait(p: nat)
    | Kill(pid: nat) | Wakeup(addr: nat) | SleepOn(p: nat, addr: nat)
    | Run(p: nat) | Yield(p: nat)

  predicate Calls(s: Sys, p: nat) {
    p < |s.procs| == |s.making| && s.procs[p].state.Running?
  }

  function Next(s: Sys, a: Action): Option<Sys> {
    match a
    case Alloc(p) =>
      if !Calls(s, p) || s.making[p].Some? || FreeSlot(s.procs).None? then None
      else
        var e := FreeSlot(s.procs).value;
        Some(s.(procs := s.procs[e := s.procs[e].(state := Embryo, pid := s.nextpid)], nextpid := s.nextpid + 1,
                making := s.making[p := FreeSlot(s.procs)]))
    case ForkFails(p) =>
      // no stack or no memory: before the parent is set
      if !Calls(s, p) || s.making[p].None? || s.making[p].value >= |s.procs|
          || s.procs[s.making[p].value].parent.Some? then None
      else
        var e := s.making[p].value;
        Some(s.(procs := s.procs[e := s.procs[e].(state := Unused)], making := s.making[p := Option.None]))
    case SetParent(p) =>
      if !Calls(s, p) || s.making[p].None? || s.making[p].value >= |s.procs| then None
      else
        var e := s.making[p].value;
        Some(s.(procs := s.procs[e := s.procs[e].(parent := Option.Some(p))]))
    case ForkDone(p) =>
      if !Calls(s, p) || s.making[p].None? || s.making[p].value >= |s.procs|
          || s.procs[s.making[p].value].parent.None? then None
      else
        var e := s.making[p].value;
        Some(s.(procs := s.procs[e := s.procs[e].(state := Runnable)], making := s.making[p := Option.None],
                born := s.born + {s.procs[e].pid}))
    case Exit(p) =>
      if !Calls(s, p) || s.making[p].Some? || p == INIT || s.procs[p].parent.None? then None
      else Some(s.(procs := ExitTable(s.procs, p)))
    case Wait(p) =>
      if !Calls(s, p) || s.making[p].Some? then None
      else
        (match ToReap(s.procs, p)
         case Some(z) => Some(s.(procs := s.procs[z := REAPED.(chan := s.procs[z].chan)],
             reaped := s.reaped + [s.procs[z].pid]))
         case None =>
           if s.procs[p].killed || Childless(s.procs, p) then Some(s)
           else Some(s.(procs := s.procs[p := s.procs[p].(state := Sleeping, chan := OnProc(p))])))
    case Kill(pid) =>
      (match WithPid(s.procs, pid)
       case None => Some(s)
       case Some(k) => Some(s.(procs := s.procs[k := Killed(s.procs[k])])))
    case Wakeup(addr) => Some(s.(procs := WakeAll(s.procs, OnOther(addr))))
    case SleepOn(p, addr) =>
      if !Calls(s, p) || s.making[p].Some? then None
      else Some(s.(procs := s.procs[p := s.procs[p].(state := Sleeping, chan := OnOther(addr))]))
    case Run(p) =>
      if p >= |s.procs| || !s.procs[p].state.Runnable? then None
      else Some(s.(procs := s.procs[p := s.procs[p].(state := Running, chan := NoChan)]))
    case Yield(p) =>
      if !Calls(s, p) then None else Some(s.(procs := s.procs[p := s.procs[p].(state := Runnable)]))
  }

  // userinit has put the first process in slot 0.
  function Boot(n: nat): Sys
    requires n > INIT
  {
    Sys(seq(n, i => if i == INIT then Proc(Runnable, 1, None, NoChan, false) else REAPED), 2, seq(n, _ => None), {}, [])
  }

  function Exec(n: nat, acts: seq<Action>): Option<Sys>
    requires n > INIT
  {
    if acts == [] then Some(Boot(n))
    else
      match Exec(n, acts[..|acts| - 1])
      case None => None
      case Some(s) => Next(s, acts[|acts| - 1])
  }

  /* ---- the invariant ---- */

  // In the table for fork's and wait's purposes: past fork, not reaped.
  predicate Present(p: Proc) {
    Active(p) || p.state.Zombie?
  }

  ghost predicate PidOk(s: Sys, i: nat)
    requires i < |s.procs|
  {
    var p := s.procs[i];
    && p.pid < s.nextpid
    && (p.state.Unused? || (p.pid > 0 && p.pid !in s.reaped))
    && (i != INIT && Present(p) ==> p.pid in s.born)
    && (p.state.Embryo? ==> p.pid !in s.born)
    && (i == INIT ==> p.pid == 1)
  }

  // A parent is neither free, nor half made, nor dead, and older than its child.
  ghost predicate ParentOk(s: Sys, i: nat)
    requires i < |s.procs|
  {
    var p := s.procs[i];
    && (p.parent.Some? ==>
        p.parent.value < |s.procs| && Active(s.procs[p.parent.value]) && s.procs[p.parent.value].pid < p.pid)
    && (p.state.Unused? ==> p.parent.None?)
    && (i != INIT && Present(p) ==> p.parent.Some?)
    && (i == INIT ==> Active(p) && p.parent.None?)
  }

  // Only wait sleeps on a process, its own, and not while it has a child to reap.
  ghost predicate SleepOk(s: Sys, i: nat)
    requires i < |s.procs|
  {
    s.procs[i].state.Sleeping? && s.procs[i].chan.OnProc? ==> s.procs[i].chan.slot == i && !HasZombie(s.procs, i)
  }

  ghost predicate MakingOk(s: Sys, i: nat)
    requires i < |s.procs| == |s.making|
  {
    && (s.making[i].Some? ==>
          var e := s.making[i].value;
          && Active(s.procs[i]) && !s.procs[i].state.Sleeping? && e < |s.procs| && s.procs[e].state.Embryo?
          && s.procs[i].pid < s.procs[e].pid && (s.procs[e].parent.Some? ==> s.procs[e].parent == Some(i)))
    && (s.procs[i].state.Embryo? && s.procs[i].parent.Some? ==>
          s.procs[i].parent.value < |s.procs| && s.making[s.procs[i].parent.value] == Some(i))
  }

  ghost predicate DistinctPids(t: Table) {
    forall i, j | 0 <= i < |t| && 0 <= j < |t| && i != j && t[i].pid != 0 :: t[i].pid != t[j].pid
  }

  ghost predicate DistinctMaking(m: seq<Option<nat>>) {
    forall i, j | 0 <= i < |m| && 0 <= j < |m| && i != j && m[i].Some? :: m[i] != m[j]
  }

  ghost predicate NoRepeats(r: seq<nat>) {
    forall i, j | 0 <= i < |r| && 0 <= j < |r| && i != j :: r[i] != r[j]
  }

  ghost predicate InTable(t: Table, pid: nat) {
    exists i | 0 <= i < |t| :: i != INIT && t[i].pid == pid && Present(t[i])
  }

  // Every forked child is in the table or has been waited for, once.
  ghost predicate Accounted(s: Sys) {
    && (forall x | x in s.born :: 0 < x < s.nextpid && (x in s.reaped || InTable(s.procs, x)))
    && (forall x | x in s.reaped :: x in s.born)
    && NoRepeats(s.reaped)
  }

  ghost predicate Inv(s: Sys) {
    && |s.procs| == |s.making| > INIT
    && (forall i | 0 <= i < |s.procs| :: PidOk(s, i) && ParentOk(s, i))
    && (forall i | 0 <= i < |s.procs| :: SleepOk(s, i))
    && (forall i | 0 <= i < |s.procs| :: MakingOk(s, i))
    && DistinctPids(s.procs) && DistinctMaking(s.making) && Accounted(s)
  }

  /* ---- steps ---- */

  // A step that leaves every pid, and every process's presence and parentage, as it was.
  ghost predicate SamePeople(t: Table, u: Table) {
    |u| == |t| && forall i | 0 <= i < |t| ::
        u[i].pid == t[i].pid && u[i].parent == t[i].parent && SameStanding(t[i], u[i])
  }

  lemma SamePeopleKept(s: Sys, u: Table)
    requires Inv(s) && SamePeople(s.procs, u)
    requires forall i | 0 <= i < |u| ::
        u[i].state.Sleeping? && u[i].chan.OnProc? ==> u[i].chan.slot == i && !HasZombie(s.procs, i)
    requires forall i | 0 <= i < |u| && s.making[i].Some? :: !u[i].state.Sleeping?
    ensures Inv(s.(procs := u))
  {
    var s' := s.(procs := u);
    forall i | 0 <= i < |u|
      ensures PidOk(s', i) && ParentOk(s', i) && MakingOk(s', i) && SleepOk(s', i)
    {
      assert PidOk(s, i) && ParentOk(s, i) && MakingOk(s, i) && SleepOk(s, i);
      assert forall j | 0 <= j < |u| :: ZombieChildOf(u[j], i) <==> ZombieChildOf(s.procs[j], i);
    }
    forall x | x in s.born
      ensures x in s.reaped || InTable(u, x)
    {
      if x !in s.reaped {
        var i :| 0 <= i < |s.procs| && i != INIT && s.procs[i].pid == x && Present(s.procs[i]);
        assert Present(u[i]);
      }
    }
  }

  // kill, wakeup, sleep, and being scheduled or preempted.
  lemma LightKeeps(s: Sys, a: Action)
    requires Inv(s) && Next(s, a).Some? && (a.Kill? || a.Wakeup? || a.SleepOn? || a.Run? || a.Yield?)
    ensures Inv(Next(s, a).value)
  {
    var u := Next(s, a).value.procs;
    forall i | 0 <= i < |u|
      ensures u[i].state.Sleeping? && u[i].chan.OnProc? ==> u[i].chan.slot == i && !HasZombie(s.procs, i)
      ensures s.making[i].Some? ==> !u[i].state.Sleeping?
    {
      assert SleepOk(s, i) && MakingOk(s, i);
    }
    SamePeopleKept(s, u);
  }

  lemma AllocOne(s: Sys, p: nat, i: nat)
    requires Inv(s) && Next(s, Alloc(p)).Some? && i < |s.procs|
    ensures var s' := Next(s, Alloc(p)).value; PidOk(s', i) && ParentOk(s', i) && SleepOk(s', i)
  {
    var s' := Next(s, Alloc(p)).value;
    assert ParentOk(s, FreeSlot(s.procs).value) && ParentOk(s, INIT);
    assert PidOk(s, i) && ParentOk(s, i) && SleepOk(s, i);
    assert forall j | 0 <= j < |s.procs| :: ZombieChildOf(s'.procs[j], i) <==> ZombieChildOf(s.procs[j], i);
    assert forall x | x in s.reaped || x in s.born :: x < s.nextpid;
  }

  lemma AllocMaking(s: Sys, p: nat, i: nat)
    requires Inv(s) && Next(s, Alloc(p)).Some? && i < |s.procs|
    ensures MakingOk(Next(s, Alloc(p)).value, i) && s.making[i] != FreeSlot(s.procs)
  {
    assert MakingOk(s, i) && ParentOk(s, FreeSlot(s.procs).value) && PidOk(s, p) && ParentOk(s, i);
  }

  lemma AllocKeeps(s: Sys, p: nat)
    requires Inv(s) && Next(s, Alloc(p)).Some?
    ensures Inv(Next(s, Alloc(p)).value)
  {
    var s' := Next(s, Alloc(p)).value;
    forall i | 0 <= i < |s.procs|
      ensures PidOk(s', i) && ParentOk(s', i) && SleepOk(s', i) && MakingOk(s', i) && s.making[i] != FreeSlot(s.procs)
    {
      AllocOne(s, p, i);
      AllocMaking(s, p, i);
    }
    forall i, j | 0 <= i < |s.procs| && 0 <= j < |s.procs| && i != j && s'.procs[i].pid != 0
      ensures s'.procs[i].pid != s'.procs[j].pid
    {
      assert PidOk(s, i) && PidOk(s, j);
    }
    SameTable(s, s');
  }

  // Children past fork that were in the table still are.
  lemma SameTable(s: Sys, s': Sys)
    requires Accounted(s) && |s'.procs| == |s.procs|
    requires s'.reaped == s.reaped && s'.born == s.born && s'.nextpid >= s.nextpid
    requires forall i | 0 <= i < |s.procs| && Present(s.procs[i]) ::
        Present(s'.procs[i]) && s'.procs[i].pid == s.procs[i].pid
    ensures Accounted(s')
  {
    forall x | x in s.born
      ensures x in s.reaped || InTable(s'.procs, x)
    {
      if x !in s.reaped {
        var i :| 0 <= i < |s.procs| && i != INIT && s.procs[i].pid == x && Present(s.procs[i]);
        assert Present(s'.procs[i]);
      }
    }
  }

  lemma ForkFailsKeeps(s: Sys, p: nat)
    requires Inv(s) && Next(s, ForkFails(p)).Some?
    ensures Inv(Next(s, ForkFails(p)).value)
  {
    var s' := Next(s, ForkFails(p)).value;
    var e := s.making[p].value;
    assert MakingOk(s, p) && MakingOk(s, e);
    forall i | 0 <= i < |s.procs|
      ensures PidOk(s', i) && ParentOk(s', i) && MakingOk(s', i) && SleepOk(s', i)
    {
      assert PidOk(s, i) && ParentOk(s, i) && MakingOk(s, i) && SleepOk(s, i);
      assert forall j | 0 <= j < |s.procs| :: ZombieChildOf(s'.procs[j], i) <==> ZombieChildOf(s.procs[j], i);
    }
    SameTable(s, s');
  }

  lemma SetParentKeeps(s: Sys, p: nat)
    requires Inv(s) && Next(s, SetParent(p)).Some?
    ensures Inv(Next(s, SetParent(p)).value)
  {
    var s' := Next(s, SetParent(p)).value;
    assert MakingOk(s, p);
    forall i | 0 <= i < |s.procs|
      ensures PidOk(s', i) && ParentOk(s', i) && MakingOk(s', i) && SleepOk(s', i)
    {
      assert PidOk(s, i) && ParentOk(s, i) && MakingOk(s, i) && SleepOk(s, i);
      assert forall j | 0 <= j < |s.procs| :: ZombieChildOf(s'.procs[j], i) <==> ZombieChildOf(s.procs[j], i);
    }
    SameTable(s, s');
  }

  lemma ForkDoneOne(s: Sys, p: nat, i: nat)
    requires Inv(s) && Next(s, ForkDone(p)).Some? && i < |s.procs|
    ensures var s' := Next(s, ForkDone(p)).value; PidOk(s', i) && ParentOk(s', i) && MakingOk(s', i) && SleepOk(s', i)
  {
    var s' := Next(s, ForkDone(p)).value;
    var e := s.making[p].value;
    assert MakingOk(s, p) && MakingOk(s, e) && PidOk(s, e) && ParentOk(s, INIT);
    assert PidOk(s, i) && ParentOk(s, i) && MakingOk(s, i) && SleepOk(s, i);
    assert forall j | 0 <= j < |s.procs| :: ZombieChildOf(s'.procs[j], i) <==> ZombieChildOf(s.procs[j], i);
  }

  lemma ForkDoneKeeps(s: Sys, p: nat)
    requires Inv(s) && Next(s, ForkDone(p)).Some?
    ensures Inv(Next(s, ForkDone(p)).value)
  {
    var s' := Next(s, ForkDone(p)).value;
    var e := s.making[p].value;
    assert MakingOk(s, p) && MakingOk(s, e) && PidOk(s, e) && ParentOk(s, INIT);
    forall i | 0 <= i < |s.procs|
      ensures PidOk(s', i) && ParentOk(s', i) && MakingOk(s', i) && SleepOk(s', i)
    {
      ForkDoneOne(s, p, i);
    }
    SameTable(s, s'.(born := s.born));
    assert Present(s'.procs[e]);
    assert InTable(s'.procs, s.procs[e].pid);
  }

  lemma ReapOne(s: Sys, p: nat, z: nat, i: nat)
    requires Inv(s) && Next(s, Wait(p)).Some? && ToReap(s.procs, p) == Some(z) && i < |s.procs|
    ensures var s' := Next(s, Wait(p)).value; PidOk(s', i) && ParentOk(s', i) && MakingOk(s', i) && SleepOk(s', i)
  {
    var s' := Next(s, Wait(p)).value;
    assert PidOk(s, z) && ParentOk(s, INIT);
    assert PidOk(s, i) && ParentOk(s, i) && MakingOk(s, i) && SleepOk(s, i);
    assert forall j | 0 <= j < |s.procs| && ZombieChildOf(s'.procs[j], i) :: ZombieChildOf(s.procs[j], i);
  }

  lemma ReapKeeps(s: Sys, p: nat, z: nat)
    requires Inv(s) && Next(s, Wait(p)).Some? && ToReap(s.procs, p) == Some(z)
    ensures Inv(Next(s, Wait(p)).value)
  {
    var s' := Next(s, Wait(p)).value;
    assert PidOk(s, z) && ParentOk(s, INIT);
    forall i | 0 <= i < |s.procs|
      ensures PidOk(s', i) && ParentOk(s', i) && MakingOk(s', i) && SleepOk(s', i)
    {
      ReapOne(s, p, z, i);
    }
    forall x | x in s.born
      ensures x in s'.reaped || InTable(s'.procs, x)
    {
      if x !in s'.reaped {
        var i :| 0 <= i < |s.procs| && i != INIT && s.procs[i].pid == x && Present(s.procs[i]);
        assert Present(s'.procs[i]);
      }
    }
  }

  lemma WaitKeeps(s: Sys, p: nat)
    requires Inv(s) && Next(s, Wait(p)).Some?
    ensures Inv(Next(s, Wait(p)).value)
  {
    var z := ToReap(s.procs, p);
    if z.Some? {
      ReapKeeps(s, p, z.value);
    } else {
      var u := Next(s, Wait(p)).value.procs;
      forall i | 0 <= i < |u|
        ensures u[i].state.Sleeping? && u[i].chan.OnProc? ==> u[i].chan.slot == i && !HasZombie(s.procs, i)
        ensures s.making[i].Some? ==> !u[i].state.Sleeping?
      {
        assert SleepOk(s, i) && MakingOk(s, i);
      }
      SamePeopleKept(s, u);
    }
  }

  // Afterwards nobody sleeps in wait with a zombie child.
  lemma ExitSleep(s: Sys, p: nat, i: nat)
    requires Inv(s) && Next(s, Exit(p)).Some? && i < |s.procs|
    ensures SleepOk(Next(s, Exit(p)).value, i)
  {
    var u := ExitTable(s.procs, p);
    if i != p {
      ExitSlot(s.procs, p, i);
      assert SleepOk(s, i) && ParentOk(s, p);
      if u[i].state.Sleeping? && u[i].chan.OnProc? {
        forall j | 0 <= j < |u|
          ensures !ZombieChildOf(u[j], i)
        {
          if j != p { ExitSlot(s.procs, p, j); }
          assert !ZombieChildOf(s.procs[j], i);
          assert ZombieChildOf(s.procs[j], p) ==> HasZombie(s.procs, p);
        }
      }
    }
  }

  lemma ExitKeeps(s: Sys, p: nat)
    requires Inv(s) && Next(s, Exit(p)).Some?
    ensures Inv(Next(s, Exit(p)).value)
  {
    var s' := Next(s, Exit(p)).value;
    assert PidOk(s, p) && ParentOk(s, p) && PidOk(s, INIT) && ParentOk(s, INIT) && MakingOk(s, p);
    forall i | 0 <= i < |s.procs|
      ensures PidOk(s', i) && ParentOk(s', i) && MakingOk(s', i) && SleepOk(s', i)
    {
      ExitSleep(s, p, i);
      ExitOne(s, p, i);
      ExitMaking(s, p, i);
    }
    forall i | 0 <= i < |s.procs|
      ensures s'.procs[i].pid == s.procs[i].pid && (Present(s.procs[i]) ==> Present(s'.procs[i]))
    {
      if i != p { ExitSlot(s.procs, p, i); }
    }
    SameTable(s, s');
  }

  lemma ExitOne(s: Sys, p: nat, i: nat)
    requires Inv(s) && Next(s, Exit(p)).Some? && i < |s.procs|
    ensures var s' := Next(s, Exit(p)).value; PidOk(s', i) && ParentOk(s', i)
  {
    assert PidOk(s, p) && ParentOk(s, p) && PidOk(s, INIT) && ParentOk(s, INIT) && MakingOk(s, p);
    assert PidOk(s, i) && ParentOk(s, i) && MakingOk(s, i);
    if i != p { ExitStanding(s.procs, p, i); }
    ExitStanding(s.procs, p, INIT);
    var up := s.procs[i].parent;
    if up.Some? && up.value != p { ExitStanding(s.procs, p, up.value); }
  }

  lemma ExitMaking(s: Sys, p: nat, i: nat)
    requires Inv(s) && Next(s, Exit(p)).Some? && i < |s.procs|
    ensures MakingOk(Next(s, Exit(p)).value, i)
  {
    assert MakingOk(s, i) && MakingOk(s, p);
    if i != p {
      ExitStanding(s.procs, p, i);
      var e := s.making[i];
      if e.Some? {
        ExitStanding(s.procs, p, e.value);
        assert MakingOk(s, e.value);
      }
    }
  }

  lemma NextKeeps(s: Sys, a: Action)
    requires Inv(s) && Next(s, a).Some?
    ensures Inv(Next(s, a).value)
  {
    match a
    case Alloc(p) => AllocKeeps(s, p);
    case ForkFails(p) => ForkFailsKeeps(s, p);
    case SetParent(p) => SetParentKeeps(s, p);
    case ForkDone(p) => ForkDoneKeeps(s, p);
    case Exit(p) => ExitKeeps(s, p);
    case Wait(p) => WaitKeeps(s, p);
    case _ => LightKeeps(s, a);
  }

  lemma BootInv(n: nat)
    requires n > INIT
    ensures Inv(Boot(n))
  {
  }

  /** In every run, with any interleaving, all of the invariant. */
  lemma {:induction false} EveryRun(n: nat, acts: seq<Action>)
    requires n > INIT && Exec(n, acts).Some?
    ensures Inv(Exec(n, acts).value)
  {
    if acts == [] {
      BootInv(n);
    } else {
      var k := |acts| - 1;
      EveryRun(n, acts[..k]);
      NextKeeps(Exec(n, acts[..k]).value, acts[k]);
    }
  }

  /** Each forked child is waited for at most once, and until then it is in the table. */
  lemma ReapedOnce(n: nat, acts: seq<Action>, x: nat)
    requires n > INIT && Exec(n, acts).Some? && x in Exec(n, acts).value.born
    ensures var s := Exec(n, acts).value; NoRepeats(s.reaped) && (x in s.reaped <==> !InTable(s.procs, x))
  {
    EveryRun(n, acts);
    var s := Exec(n, acts).value;
    if i :| 0 <= i < |s.procs| && i != INIT && s.procs[i].pid == x && Present(s.procs[i]) {
      assert PidOk(s, i);
    }
  }

  /** Every zombie, and every other process but init, has a living parent that is older. */
  lemma LivingParent(n: nat, acts: seq<Action>, i: nat)
    requires n > INIT && Exec(n, acts).Some? && i < |Exec(n, acts).value.procs| && i != INIT
    requires Present(Exec(n, acts).value.procs[i])
    ensures var t := Exec(n, acts).value.procs;
            t[i].parent.Some? && t[i].parent.value < |t| && Active(t[t[i].parent.value])
                && t[t[i].parent.value].pid < t[i].pid
  {
    EveryRun(n, acts);
    assert ParentOk(Exec(n, acts).value, i);
  }

  /** No process sleeps in wait while it has a zombie child. */
  lemma NoSleepOverZombie(n: nat, acts: seq<Action>, i: nat, z: nat)
    requires n > INIT && Exec(n, acts).Some? && i < |Exec(n, acts).value.procs| && z < |Exec(n, acts).value.procs|
    requires IsSleepingOn(Exec(n, acts).value.procs[i], OnProc(i))
    ensures !ZombieChildOf(Exec(n, acts).value.procs[z], i)
  {
    EveryRun(n, acts);
    assert SleepOk(Exec(n, acts).value, i);
  }

  /** A parent waiting for a dead child gets it: the next scan reaps some zombie child of its own. */
  lemma WaitReaps(n: nat, acts: seq<Action>, p: nat, z: nat)
    requires n > INIT && Exec(n, acts).Some? && z < |Exec(n, acts).value.procs|
    requires ZombieChildOf(Exec(n, acts).value.procs[z], p) && Next(Exec(n, acts).value, Wait(p)).Some?
    ensures var s, s' := Exec(n, acts).value, Next(Exec(n, acts).value, Wait(p)).value;
            |s'.reaped| == |s.reaped| + 1 && s'.reaped[|s.reaped|] in s.born && s'.reaped[|s.reaped|] !in s.reaped
  {
    EveryRun(n, acts);
    var s := Exec(n, acts).value;
    var y := ToReap(s.procs, p).value;
    assert PidOk(s, y) && ParentOk(s, y);
  }
  /** In every run, a child that fork returns is RUNNABLE, younger than the caller, whose child it is, and its pid is
      new; nothing else in the table changes. */
  lemma ForkedChild(n: nat, acts: seq<Action>, p: nat)
    requires n > INIT && Exec(n, acts).Some? && Next(Exec(n, acts).value, ForkDone(p)).Some?
    ensures var s, s' := Exec(n, acts).value, Next(Exec(n, acts).value, ForkDone(p)).value;
            && p < |s.making| && s.making[p].Some? && s.making[p].value < |s.procs| == |s'.procs|
            && var e := s.making[p].value;
            && s'.procs[e].state.Runnable? && s'.procs[e].parent == Some(p) && s.procs[p].pid < s'.procs[e].pid
            && s'.procs[e].pid == s.procs[e].pid && s.procs[e].pid !in s.born && s'.born == s.born + {s.procs[e].pid}
            && forall i | 0 <= i < |s.procs| && i != e :: s'.procs[i] == s.procs[i]
  {
    EveryRun(n, acts);
    var s := Exec(n, acts).value;
    assert MakingOk(s, p) && PidOk(s, s.making[p].value);
  }

  /** wakeup leaves nobody asleep on its channel, and touches nobody else. */
  lemma WakeupWakes(s: Sys, addr: nat, i: nat)
    requires i < |s.procs|
    ensures Next(s, Wakeup(addr)).Some? && |Next(s, Wakeup(addr)).value.procs| == |s.procs|
    ensures var p, p' := s.procs[i], Next(s, Wakeup(addr)).value.procs[i];
            if p.state.Sleeping? && p.chan == OnOther(addr) then p' == p.(state := Runnable) else p' == p
  {
  }

  /* ---- kill ---- */

  // a is a kill that comes to slot i, and a wait that reaps it.
  ghost predicate Hits(t: Table, a: Action, i: nat) {
    a.Kill? && i < |t| && t[i].pid == a.pid && forall j | 0 <= j < i :: t[j].pid != a.pid
  }

  ghost predicate Reaps(t: Table, a: Action, i: nat) {
    && a.Wait? && i < |t| && t[i].parent == Some(a.p) && t[i].state.Zombie?
    && forall j | 0 <= j < i :: !(t[j].parent == Some(a.p) && t[j].state.Zombie?)
  }

  // Some kill has come to slot i since it was last reaped.
  ghost predicate KilledSince(n: nat, acts: seq<Action>, i: nat)
    requires n > INIT
  {
    acts != [] && var k := |acts| - 1;
    var before := Exec(n, acts[..k]);
    before.Some? && (Hits(before.value.procs, acts[k], i)
        || (!Reaps(before.value.procs, acts[k], i) && KilledSince(n, acts[..k], i)))
  }

  // What a step does to the mark of slot i.
  lemma MarkStep(s: Sys, a: Action, i: nat)
    requires Next(s, a).Some? && i < |s.procs|
    ensures |Next(s, a).value.procs| == |s.procs|
    ensures Next(s, a).value.procs[i].killed <==> Hits(s.procs, a, i) || (!Reaps(s.procs, a, i) && s.procs[i].killed)
    ensures Hits(s.procs, a, i) ==>
            var p, p' := s.procs[i], Next(s, a).value.procs[i];
            && p'.pid == p.pid && p'.parent == p.parent && p'.chan == p.chan
            && p'.state == if p.state.Sleeping? then Runnable else p.state
    ensures a.Kill? && !Hits(s.procs, a, i) ==> Next(s, a).value.procs[i] == s.procs[i]
  {
    if a.Exit? { ExitSlot(s.procs, a.p, i); }
    if a.Kill? { assert WithPid(s.procs, a.pid) == Some(i) <==> Hits(s.procs, a, i); }
    if a.Wait? && Next(s, a).value != s { assert ToReap(s.procs, a.p) == Some(i) <==> Reaps(s.procs, a, i); }
  }

  /** In every run a slot is marked if and only if a kill has come to it since it was last reaped. */
  lemma {:induction false} MarkedIff(n: nat, acts: seq<Action>, i: nat)
    requires n > INIT && Exec(n, acts).Some? && i < n
    ensures |Exec(n, acts).value.procs| == n && (Exec(n, acts).value.procs[i].killed <==> KilledSince(n, acts, i))
  {
    if acts != [] {
      var k := |acts| - 1;
      MarkedIff(n, acts[..k], i);
      MarkStep(Exec(n, acts[..k]).value, acts[k], i);
    }
  }

  lemma StaysPresent(s: Sys, a: Action, i: nat)
    requires Inv(s) && Next(s, a).Some? && i < |s.procs| && Present(s.procs[i])
    ensures forall x | x in s.reaped :: x in Next(s, a).value.reaped
    ensures Reaps(s.procs, a, i) ==> s.procs[i].pid in Next(s, a).value.reaped
    ensures !Reaps(s.procs, a, i) ==> i < |Next(s, a).value.procs|
    ensures !Reaps(s.procs, a, i) ==>
            Present(Next(s, a).value.procs[i]) && Next(s, a).value.procs[i].pid == s.procs[i].pid
  {
    if a.Exit? { ExitSlot(s.procs, a.p, i); }
    if a.ForkFails? || a.SetParent? || a.ForkDone? { assert MakingOk(s, a.p); }
    if a.Wait? && ToReap(s.procs, a.p).Some? { assert ToReap(s.procs, a.p) == Some(i) <==> Reaps(s.procs, a, i); }
  }

  // Process x is in slot i, and marked.
  ghost predicate MarkedIn(s: Sys, i: nat, x: nat) {
    i < |s.procs| && s.procs[i].pid == x && s.procs[i].killed && Present(s.procs[i])
  }

  lemma MarkedNext(s: Sys, a: Action, i: nat, x: nat)
    requires Inv(s) && Next(s, a).Some? && (x in s.reaped || MarkedIn(s, i, x))
    ensures x in Next(s, a).value.reaped || MarkedIn(Next(s, a).value, i, x)
  {
    if MarkedIn(s, i, x) {
      MarkStep(s, a, i);
      StaysPresent(s, a, i);
    }
  }

  /** A process that has been killed stays marked, in its slot, until it is reaped. */
  lemma {:induction false} StaysKilled(n: nat, acts: seq<Action>, k: nat, i: nat, x: nat)
    requires n > INIT && k <= |acts| && Exec(n, acts[..k]).Some? && Exec(n, acts).Some?
    requires MarkedIn(Exec(n, acts[..k]).value, i, x)
    ensures x in Exec(n, acts).value.reaped || MarkedIn(Exec(n, acts).value, i, x)
    decreases |acts|
  {
    if k == |acts| {
      assert acts[..k] == acts;
    } else {
      var m := |acts| - 1;
      assert acts[..m][..k] == acts[..k];
      StaysKilled(n, acts[..m], k, i, x);
      EveryRun(n, acts[..m]);
      MarkedNext(Exec(n, acts[..m]).value, acts[m], i, x);
    }
  }

  /* ---- does a new process start unmarked? ---- */

  // Nothing in the free slots is marked.
  ghost predicate FreeUnmarked(s: Sys) {
    forall i | 0 <= i < |s.procs| && s.procs[i].state.Unused? :: !s.procs[i].killed
  }

  // A kill that comes to a free slot, as kill(0) may, or a fork that fails after its child was killed: allocproc does
  // not clear the mark (proc.c:58-63), only wait does (proc.c:273).
  ghost predicate LeavesMark(s: Sys, a: Action) {
    || (a.Kill? && exists i: nat :: Hits(s.procs, a, i) && s.procs[i].state.Unused?)
    || (a.ForkFails? && a.p < |s.making| && s.making[a.p].Some? && s.making[a.p].value < |s.procs|
        && s.procs[s.making[a.p].value].killed)
  }

  lemma FreedBy(s: Sys, a: Action, i: nat)
    requires Inv(s) && Next(s, a).Some? && i < |s.procs|
    ensures |Next(s, a).value.procs| == |s.procs|
    ensures Next(s, a).value.procs[i].state.Unused? ==>
            s.procs[i].state.Unused? || Reaps(s.procs, a, i) || (a.ForkFails? && s.making[a.p] == Some(i))
  {
    if a.Exit? { ExitSlot(s.procs, a.p, i); }
    if a.Wait? && ToReap(s.procs, a.p).Some? { assert ToReap(s.procs, a.p) == Some(i) <==> Reaps(s.procs, a, i); }
  }


  lemma NoMarkStep(s: Sys, a: Action, i: nat)
    requires Inv(s) && FreeUnmarked(s) && Next(s, a).Some? && !LeavesMark(s, a) && i < |s.procs|
    ensures |Next(s, a).value.procs| == |s.procs|
    ensures Next(s, a).value.procs[i].state.Unused? ==> !Next(s, a).value.procs[i].killed
  {
    MarkStep(s, a, i);
    FreedBy(s, a, i);
  }

  lemma MarkLeft(s: Sys, a: Action)
    requires Inv(s) && Next(s, a).Some? && LeavesMark(s, a)
    ensures !FreeUnmarked(Next(s, a).value)
  {
    if a.Kill? {
      var i: nat :| Hits(s.procs, a, i) && s.procs[i].state.Unused?;
      assert WithPid(s.procs, a.pid) == Some(i);
      assert Next(s, a).value.procs[i].state.Unused? && Next(s, a).value.procs[i].killed;
    } else {
      var i := s.making[a.p].value;
      assert Next(s, a).value.procs[i].state.Unused? && Next(s, a).value.procs[i].killed;
    }
  }

  /** Free slots stay unmarked, so that every child starts unmarked, exactly as long as no step is of that kind. */
  lemma FreeUnmarkedIff(s: Sys, a: Action)
    requires Inv(s) && FreeUnmarked(s) && Next(s, a).Some?
    ensures FreeUnmarked(Next(s, a).value) <==> !LeavesMark(s, a)
  {
    if LeavesMark(s, a) {
      MarkLeft(s, a);
    } else {
      forall i | 0 <= i < |s.procs|
        ensures |Next(s, a).value.procs| == |s.procs|
        ensures Next(s, a).value.procs[i].state.Unused? ==> !Next(s, a).value.procs[i].killed
      {
        NoMarkStep(s, a, i);
      }
      assert |s.procs| > 0;
    }
  }
  // No step of the run is of that kind.
  ghost predicate NoMarkLeft(n: nat, acts: seq<Action>)
    requires n > INIT
  {
    forall k | 0 <= k < |acts| :: Exec(n, acts[..k]).Some? ==> !LeavesMark(Exec(n, acts[..k]).value, acts[k])
  }

  lemma {:induction false} FreeStayUnmarked(n: nat, acts: seq<Action>)
    requires n > INIT && Exec(n, acts).Some? && NoMarkLeft(n, acts)
    ensures FreeUnmarked(Exec(n, acts).value)
  {
    if acts != [] {
      var k := |acts| - 1;
      assert forall j | 0 <= j < k :: acts[..k][..j] == acts[..j] && acts[..k][j] == acts[j];
      FreeStayUnmarked(n, acts[..k]);
      EveryRun(n, acts[..k]);
      FreeUnmarkedIff(Exec(n, acts[..k]).value, acts[k]);
    }
  }

  /** In such a run every child that fork allocates starts unmarked. */
  lemma StartsUnmarked(n: nat, acts: seq<Action>, p: nat)
    requires n > INIT && Exec(n, acts).Some? && NoMarkLeft(n, acts) && Next(Exec(n, acts).value, Alloc(p)).Some?
    ensures var s := Next(Exec(n, acts).value, Alloc(p)).value;
            && p < |s.making| && s.making[p].Some? && s.making[p].value < |s.procs|
            && s.procs[s.making[p].value].state.Embryo? && !s.procs[s.making[p].value].killed
  {
    FreeStayUnmarked(n, acts);
  }

  lemma OneMore(n: nat, acts: seq<Action>, a: Action)
    requires n > INIT && Exec(n, acts).Some?
    ensures Exec(n, acts + [a]) == Next(Exec(n, acts).value, a)
  {
    assert (acts + [a])[..|acts|] == acts;
  }

  // init runs, and somebody kills process 0.
  lemma KillNobody(n: nat)
    requires n > 1
    ensures Exec(n, [Run(0), Kill(0)]).Some?
    ensures var s := Exec(n, [Run(0), Kill(0)]).value;
            && |s.procs| == |s.making| == n && s.procs[0].state.Running? && s.making[0].None? && s.nextpid == 2
            && s.procs[1] == REAPED.(killed := true)
  {
    OneMore(n, [], Run(0));
    OneMore(n, [Run(0)], Kill(0));
    assert [] + [Run(0)] == [Run(0)] && [Run(0)] + [Kill(0)] == [Run(0), Kill(0)];
    var s1 := Next(Boot(n), Run(0)).value;
    assert s1.procs[0].pid == 1 && s1.procs[1].pid == 0;
    assert WithPid(s1.procs, 0) == Some(1);
  }

  /** kill(0) succeeds on a slot that was never used, and the next child is killed from birth. */
  lemma BornKilled(n: nat)
    requires n > 1
    ensures var acts := [Run(0), Kill(0), Alloc(0), SetParent(0), ForkDone(0)];
            && Exec(n, acts).Some? && |Exec(n, acts).value.procs| == n
            && Exec(n, acts).value.procs[1] == Proc(Runnable, 2, Some(0), NoChan, true)
  {
    KillNobody(n);
    var two := [Run(0), Kill(0)];
    var s2 := Exec(n, two).value;
    assert FreeSlot(s2.procs) == Some(1);
    OneMore(n, two, Alloc(0));
    OneMore(n, two + [Alloc(0)], SetParent(0));
    OneMore(n, two + [Alloc(0)] + [SetParent(0)], ForkDone(0));
    assert two + [Alloc(0)] + [SetParent(0)] + [ForkDone(0)] == [Run(0), Kill(0), Alloc(0), SetParent(0), ForkDone(0)];
  }

}
