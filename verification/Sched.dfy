/** The multi-level scheduler on one CPU, policy Q3 (proc.c:299-445, 473-490; trap.c:50-61, 110-113;
    sysproc.c:141-158).

    The scheduler holds ptable.lock from the start of a round to its end except while a process runs, so
    nothing changes between its own steps.  While a process runs, it and the interrupts it takes may change
    the table; between rounds only interrupts may. */
module Scheduler {
  import opened Options
  import opened ProcStates

  const LOW: nat := 0
  const MEDIUM: nat := 1
  const HIGH: nat := 2
  const QUANTA: nat := 5
  const WRAP: nat := 0x1_0000_0000

  datatype Proc = Proc(state: State, level: nat, rtime: nat, ctime: nat, counter: nat)

  type Table = seq<Proc>

  /* ---- choosing ---- */

  predicate Ready(p: Proc) {
    p.state.Runnable? || p.state.Running?
  }

  predicate IsRunnable(p: Proc, level: nat) {
    p.state.Runnable? && p.level == level
  }

  // A process of that level is RUNNABLE or RUNNING.
  predicate AnyReady(t: Table, level: nat) {
    exists i | 0 <= i < |t| :: Ready(t[i]) && t[i].level == level
  }

  method CheckForHigher(t: Table, grt0: bool, frr0: bool) returns (grt: bool, frr: bool)
    ensures grt == (grt0 || AnyReady(t, HIGH)) && frr == (frr0 || AnyReady(t, MEDIUM))
    ensures grt <==>
      grt0 || exists i | 0 <= i < |t| :: (t[i].state.Runnable? || t[i].state.Running?) && t[i].level == HIGH
    ensures frr <==>
      frr0 || exists i | 0 <= i < |t| :: (t[i].state.Runnable? || t[i].state.Running?) && t[i].level == MEDIUM
  {
    grt, frr := grt0, frr0;
    var i := 0;
    while i < |t|
      invariant 0 <= i <= |t|
      invariant grt <==> grt0 || exists j | 0 <= j < i :: Ready(t[j]) && t[j].level == HIGH
      invariant frr <==> frr0 || exists j | 0 <= j < i :: Ready(t[j]) && t[j].level == MEDIUM
    {
      if t[i].state.Runnable? || t[i].state.Running? {
        if t[i].level == HIGH {
          grt := true;
        } else if t[i].level == MEDIUM {
          frr := true;
        }
      }
      i := i + 1;
    }
  }

  // The share of its life that a process has run, in exact arithmetic; `ticks` and ctime are 32-bit.
  function Share(p: Proc, ticks: nat): real {
    var down := (ticks - p.ctime) % WRAP;
    if down == 0 then 0.0 else p.rtime as real / down as real
  }

  // d is the first slot with the smallest share among the RUNNABLE ones of level HIGH.
  ghost predicate IsFairest(t: Table, ticks: nat, d: nat) {
    && d < |t| && IsRunnable(t[d], HIGH)
    && (forall j | 0 <= j < |t| && IsRunnable(t[j], HIGH) :: Share(t[d], ticks) <= Share(t[j], ticks))
    && (forall j | 0 <= j < d && IsRunnable(t[j], HIGH) :: Share(t[d], ticks) < Share(t[j], ticks))
  }

  function Fairest(t: Table, ticks: nat): (r: Option<nat>)
    ensures r.Some? ==> IsFairest(t, ticks, r.value)
    ensures r.None? ==> forall i | 0 <= i < |t| :: !IsRunnable(t[i], HIGH)
  {
    if t == [] then None
    else
      var k := |t| - 1;
      assert forall j | 0 <= j < k :: t[..k][j] == t[j];
      match Fairest(t[..k], ticks)
      case None => if IsRunnable(t[k], HIGH) then Some(k) else None
      case Some(d) => if IsRunnable(t[k], HIGH) && Share(t[k], ticks) < Share(t[d], ticks) then Some(k) else Some(d)
  }

  // Ticks since the process was created.
  ghost function Age(p: Proc, ticks: nat): nat {
    (ticks - p.ctime) % WRAP
  }

  // p has run no larger part of its life than q, or a smaller one, without dividing; a process of age 0 counts as
  // having run nothing.
  ghost predicate RanNoMore(p: Proc, q: Proc, ticks: nat) {
    if Age(p, ticks) == 0 then true
    else if Age(q, ticks) == 0 then p.rtime == 0
    else p.rtime * Age(q, ticks) <= q.rtime * Age(p, ticks)
  }

  ghost predicate RanLess(p: Proc, q: Proc, ticks: nat) {
    if Age(q, ticks) == 0 then false
    else if Age(p, ticks) == 0 then q.rtime > 0
    else p.rtime * Age(q, ticks) < q.rtime * Age(p, ticks)
  }

  lemma Crosswise(a: nat, b: nat, c: nat, d: nat)
    requires b > 0 && d > 0
    ensures a as real / b as real <= c as real / d as real <==> a * d <= c * b
  {
    var x, y := a as real / b as real, c as real / d as real;
    var m := b as real * d as real;
    assert x * b as real == a as real && y * d as real == c as real;
    assert x * m == a as real * d as real && y * m == c as real * b as real;
    assert m > 0.0;
    if x <= y { assert x * m <= y * m; } else { assert x * m > y * m; }
    assert (a * d) as real == a as real * d as real && (c * b) as real == c as real * b as real;
  }

  // Comparing shares is comparing run times crosswise.
  lemma ShareIff(p: Proc, q: Proc, ticks: nat)
    ensures Share(p, ticks) <= Share(q, ticks) <==> RanNoMore(p, q, ticks)
    ensures Share(p, ticks) < Share(q, ticks) <==> RanLess(p, q, ticks)
  {
    var a, b := Age(p, ticks), Age(q, ticks);
    if a > 0 && b > 0 {
      Crosswise(p.rtime, a, q.rtime, b);
      Crosswise(q.rtime, b, p.rtime, a);
    } else if a > 0 {
      Crosswise(p.rtime, a, 0, 1);
    } else if b > 0 {
      Crosswise(q.rtime, b, 0, 1);
    }
  }

  // What the fairest slot means.
  lemma FairestMeans(t: Table, ticks: nat, d: nat)
    requires IsFairest(t, ticks, d)
    ensures t[d].state.Runnable? && t[d].level == HIGH
    ensures forall j | 0 <= j < |t| && t[j].state.Runnable? && t[j].level == HIGH :: RanNoMore(t[d], t[j], ticks)
    ensures forall j | 0 <= j < d && t[j].state.Runnable? && t[j].level == HIGH :: RanLess(t[d], t[j], ticks)
  {
    forall j | 0 <= j < |t| && t[j].state.Runnable? && t[j].level == HIGH
      ensures RanNoMore(t[d], t[j], ticks) && (j < d ==> RanLess(t[d], t[j], ticks))
    {
      assert IsRunnable(t[j], HIGH);
      ShareIff(t[d], t[j], ticks);
    }
  }

  method PickHigh(t: Table, ticks: nat) returns (best: int)
    ensures best == -1 || (0 <= best && IsFairest(t, ticks, best))
    ensures best == -1 <==> forall i | 0 <= i < |t| :: !(t[i].state.Runnable? && t[i].level == HIGH)
    ensures best >= 0 ==> best < |t| && t[best].state.Runnable? && t[best].level == HIGH
    ensures best >= 0 ==> forall j | 0 <= j < |t| && t[j].state.Runnable? && t[j].level == HIGH ::
      RanNoMore(t[best], t[j], ticks)
    ensures best >= 0 ==> forall j | 0 <= j < best && t[j].state.Runnable? && t[j].level == HIGH ::
      RanLess(t[best], t[j], ticks)
  {
    best := -1;
    var bestValue: real := -1.0;
    var i := 0;
    while i < |t|
      invariant 0 <= i <= |t| && -1 <= best < i
      invariant best == -1 ==> bestValue == -1.0 && forall j | 0 <= j < i :: !IsRunnable(t[j], HIGH)
      invariant best >= 0 ==> IsRunnable(t[best], HIGH) && bestValue == Share(t[best], ticks) >= 0.0
      invariant best >= 0 ==> forall j | 0 <= j < i && IsRunnable(t[j], HIGH) :: bestValue <= Share(t[j], ticks)
      invariant best >= 0 ==> forall j | 0 <= j < best && IsRunnable(t[j], HIGH) :: bestValue < Share(t[j], ticks)
    {
      if t[i].state.Runnable? && t[i].level == HIGH {
        var value := Share(t[i], ticks);
        if bestValue == -1.0 || bestValue > value {
          bestValue := value;
          best := i;
        }
      }
      i := i + 1;
    }
    if best >= 0 { FairestMeans(t, ticks, best); }
  }

  /* ---- the machine ---- */

  // Where the scheduler is: between rounds, at slot i of the loop over MEDIUM or LOW, or running slot r from
  // one of the three places that dispatch.
  datatype Ctl = Idle | Med(i: nat) | Lo(i: nat) | RunHigh(r: nat) | RunMed(r: nat) | RunLo(r: nat)

  // History: `taken`, timer interrupts since the dispatch that counted against the running process;
  // `wanted`, somebody was RUNNABLE when the round began; `ran`, somebody was dispatched in it; `waited[p]`,
  // dispatches since p became RUNNABLE or some higher process was last ready.
  datatype Sys = Sys(procs: Table, ticks: nat, ctl: Ctl, grt: bool, frr: bool,
                     taken: nat, wanted: bool, ran: bool, waited: seq<nat>)

  datatype Action =
    | Sched                                       // the scheduler's next step
    | Timer | Nice | Block | Die                  // the running process
    | Alloc(i: nat) | Made(i: nat) | Clear(i: nat)   // fork and wait on another slot
    | Wake(i: nat) | Tick                         // interrupts; Tick is a timer interrupt between rounds

  predicate RunningNow(c: Ctl) {
    c.RunHigh? || c.RunMed? || c.RunLo?
  }

  function Dispatch(s: Sys, d: nat, c: Ctl): Sys
    requires d < |s.procs|
  {
    s.(procs := s.procs[d := s.procs[d].(state := Running, counter := 0)], ctl := c, taken := 0, ran := true)
  }

  // One step of the scheduler itself.
  function SchedStep(s: Sys): Sys
    requires !RunningNow(s.ctl)
  {
    match s.ctl
    case Idle =>
      var s1 := s.(grt := AnyReady(s.procs, HIGH), frr := AnyReady(s.procs, MEDIUM),
                   wanted := exists i | 0 <= i < |s.procs| :: s.procs[i].state.Runnable?, ran := false);
      (match Fairest(s.procs, s.ticks)
       case Some(d) => Dispatch(s1, d, RunHigh(d))
       case None => if s1.grt then s1 else s1.(ctl := Med(0)))
    case Med(i) =>
      if i >= |s.procs| then (if s.grt || s.frr then s.(ctl := Idle) else s.(ctl := Lo(0)))
      else if IsRunnable(s.procs[i], MEDIUM) then Dispatch(s.(frr := true), i, RunMed(i))
      else s.(ctl := Med(i + 1))
    case Lo(i) =>
      if i >= |s.procs| then s.(ctl := Idle)
      else if IsRunnable(s.procs[i], LOW) then Dispatch(s, i, RunLo(i))
      else s.(ctl := Lo(i + 1))
  }

  // The running process has changed its state and switched back to the scheduler.
  function Back(s: Sys): Sys
    requires RunningNow(s.ctl)
  {
    var grt, frr := s.grt || AnyReady(s.procs, HIGH), s.frr || AnyReady(s.procs, MEDIUM);
    match s.ctl
    case RunHigh(r) => s.(ctl := if s.grt then Idle else Med(0))
    case RunMed(r) => s.(grt := grt, frr := frr, ctl := if grt then Idle else Med(r + 1))
    case RunLo(r) => s.(grt := grt, frr := frr, ctl := if grt || frr then Idle else Lo(r + 1))
  }

  function SetState(s: Sys, i: nat, st: State): Sys
    requires i < |s.procs|
  {
    s.(procs := s.procs[i := s.procs[i].(state := st)])
  }

  // A timer interrupt taken by the running process: the tick, then yield.
  function TimerStep(s: Sys): Sys
    requires RunningNow(s.ctl) && s.ctl.r < |s.procs|
  {
    var r := s.ctl.r;
    var p := s.procs[r].(rtime := (s.procs[r].rtime + 1) % WRAP);
    var s1 := s.(ticks := (s.ticks + 1) % WRAP, procs := s.procs[r := p]);
    if p.level == HIGH then s1
    else if p.counter < QUANTA then s1.(procs := s.procs[r := p.(counter := p.counter + 1)], taken := s.taken + 1)
    else Back(s1.(procs := s.procs[r := p.(counter := 0, state := Runnable)], taken := s.taken + 1))
  }

  function Niced(level: nat): nat {
    if level == HIGH then MEDIUM else if level == MEDIUM then LOW else HIGH
  }

  // A step before the history of waiting is brought up to date.
  function Plain(s: Sys, a: Action): Option<Sys> {
    if a.Sched? then (if RunningNow(s.ctl) then None else Some(SchedStep(s)))
    else if a.Wake? then
      if (RunningNow(s.ctl) || s.ctl.Idle?) && a.i < |s.procs| && s.procs[a.i].state.Sleeping?
      then Some(SetState(s, a.i, Runnable)) else None
    else if a.Tick? then (if s.ctl.Idle? then Some(s.(ticks := (s.ticks + 1) % WRAP)) else None)
    else if !RunningNow(s.ctl) || s.ctl.r >= |s.procs| then None
    else
      var r := s.ctl.r;
      match a
      case Timer => Some(TimerStep(s))
      case Nice => Some(s.(procs := s.procs[r := s.procs[r].(level := Niced(s.procs[r].level))]))
      case Block => Some(Back(SetState(s, r, Sleeping)))
      case Die => Some(Back(SetState(s, r, Zombie)))
      case Alloc(i) =>
        if i < |s.procs| && s.procs[i].state.Unused?
        then Some(s.(procs := s.procs[i := Proc(Embryo, HIGH, 0, s.ticks, s.procs[i].counter)])) else None
      case Made(i) => if i < |s.procs| && s.procs[i].state.Embryo? then Some(SetState(s, i, Runnable)) else None
      case Clear(i) =>
        if i < |s.procs| && (s.procs[i].state.Embryo? || s.procs[i].state.Zombie?)
            then Some(SetState(s, i, Unused)) else None
  }

  // Some process of a higher level is RUNNABLE or RUNNING.
  predicate HigherReady(t: Table, p: nat)
    requires p < |t|
  {
    exists q | 0 <= q < |t| :: Ready(t[q]) && t[q].level > t[p].level
  }

  function Waits(t: Table, waited: seq<nat>, more: nat): (w: seq<nat>)
    ensures |w| == |t|
  {
    seq(|t|, p requires 0 <= p < |t| =>
      if t[p].state.Runnable? && !HigherReady(t, p) && p < |waited| then waited[p] + more else 0)
  }

  function Next(s: Sys, a: Action): Option<Sys> {
    match Plain(s, a)
    case None => None
    case Some(u) => Some(u.(waited := Waits(u.procs, s.waited, if a.Sched? && RunningNow(u.ctl) then 1 else 0)))
  }

  // Only the first process exists, in slot 0.
  function Boot(n: nat): Sys
    requires n > 0
  {
    Sys(seq(n, i => Proc(if i == 0 then Runnable else Unused, if i == 0 then HIGH else LOW, 0, 0, 0)),
        0, Idle, false, false, 0, false, false, seq(n, _ => 0))
  }

  function Exec(n: nat, acts: seq<Action>): Option<Sys>
    requires n > 0
  {
    if acts == [] then Some(Boot(n))
    else
      match Exec(n, acts[..|acts| - 1])
      case None => None
      case Some(s) => Next(s, acts[|acts| - 1])
  }

  /* ---- the invariant ---- */

  // Only slot r is RUNNING.
  predicate Alone(t: Table, r: nat) {
    r < |t| && t[r].state.Running? && forall i | 0 <= i < |t| && i != r :: !t[i].state.Running?
  }

  predicate NoneRunning(t: Table) {
    forall i | 0 <= i < |t| :: !t[i].state.Running?
  }

  predicate LevelsOk(t: Table) {
    forall i | 0 <= i < |t| :: t[i].level <= HIGH
  }

  // A slot that the loop over that level will still come to.
  predicate Ahead(t: Table, level: nat, i: nat) {
    exists j | i <= j < |t| :: IsRunnable(t[j], level)
  }

  ghost predicate CtlOk(s: Sys) {
    match s.ctl
    case Idle => NoneRunning(s.procs) && (s.wanted ==> s.ran)
    case Med(i) =>
      && NoneRunning(s.procs) && !s.grt && !AnyReady(s.procs, HIGH) && i <= |s.procs|
      && (!s.frr ==> !AnyReady(s.procs, MEDIUM) && (s.wanted && !s.ran ==> Ahead(s.procs, LOW, 0)))
      && (s.frr && s.wanted && !s.ran ==> Ahead(s.procs, MEDIUM, i))
    case Lo(i) =>
      && NoneRunning(s.procs) && !s.grt && !s.frr && !AnyReady(s.procs, HIGH) && !AnyReady(s.procs, MEDIUM)
          && i <= |s.procs|
      && (s.wanted && !s.ran ==> Ahead(s.procs, LOW, i))
    case RunHigh(r) => Alone(s.procs, r) && s.ran && s.grt
    case RunMed(r) => Alone(s.procs, r) && s.ran && !s.grt && s.frr
    case RunLo(r) => Alone(s.procs, r) && s.ran && !s.grt && !s.frr
  }

  ghost predicate QuantumOk(s: Sys) {
    RunningNow(s.ctl) && s.ctl.r < |s.procs| ==> s.taken == s.procs[s.ctl.r].counter <= QUANTA
  }

  // Slots the loop over p's level, now at slot i, visits before p.
  function Gap(n: nat, p: nat, i: nat): int {
    if i <= p then p - i else n - i + p
  }

  // At most how many dispatches of its own level come before p's.
  function Before(s: Sys, p: nat): int
    requires p < |s.procs|
  {
    var n, level := |s.procs|, s.procs[p].level;
    match s.ctl
    case Med(i) => if level == MEDIUM then Gap(n, p, i) else p
    case RunMed(r) => if level == MEDIUM then Gap(n, p, r + 1) else p
    case Lo(i) => if level == LOW then Gap(n, p, i) else p
    case RunLo(r) => if level == LOW then Gap(n, p, r + 1) else p
    case _ => p
  }

  ghost predicate WaitOk(s: Sys, p: nat)
    requires p < |s.procs| == |s.waited|
  {
    && (!s.procs[p].state.Runnable? || HigherReady(s.procs, p) ==> s.waited[p] == 0)
    && (s.procs[p].state.Runnable? && s.procs[p].level < HIGH ==> s.waited[p] + Before(s, p) <= |s.procs| - 1)
  }

  ghost predicate Inv(s: Sys) {
    && |s.waited| == |s.procs| && LevelsOk(s.procs) && CtlOk(s) && QuantumOk(s)
    && forall p | 0 <= p < |s.procs| :: WaitOk(s, p)
  }

  /* ---- every dispatch is right ---- */

  // The table and the clock, at a step that dispatched slot d from s.
  ghost predicate RightChoice(s: Sys, d: nat) {
    && d < |s.procs| && s.procs[d].state.Runnable?
    && (forall q | 0 <= q < |s.procs| && s.procs[q].state.Runnable? :: s.procs[q].level <= s.procs[d].level)
    && (s.procs[d].level == HIGH ==> IsFairest(s.procs, s.ticks, d))
  }

  lemma DispatchIsRight(s: Sys)
    requires Inv(s) && !RunningNow(s.ctl) && RunningNow(SchedStep(s).ctl)
    ensures RightChoice(s, SchedStep(s).ctl.r)
  {
    forall q | 0 <= q < |s.procs| && s.procs[q].state.Runnable?
      ensures s.procs[q].level <= s.procs[SchedStep(s).ctl.r].level
    {
      assert Ready(s.procs[q]);
    }
  }

  /* ---- steps ---- */

  lemma RoundStarts(s: Sys)
    requires Inv(s) && s.ctl.Idle?
    ensures CtlOk(SchedStep(s)) && QuantumOk(SchedStep(s)) && LevelsOk(SchedStep(s).procs)
  {
    var u := SchedStep(s);
    if u.ctl.Med? {
      forall i | 0 <= i < |s.procs| && s.procs[i].state.Runnable?
        ensures u.frr || Ahead(s.procs, LOW, 0)
      {
        assert Ready(s.procs[i]);
        assert u.frr || IsRunnable(s.procs[i], LOW);
      }
      if u.frr {
        var i :| 0 <= i < |s.procs| && Ready(s.procs[i]) && s.procs[i].level == MEDIUM;
        assert IsRunnable(s.procs[i], MEDIUM);
      }
    }
  }

  lemma MediumStep(s: Sys)
    requires Inv(s) && s.ctl.Med?
    ensures CtlOk(SchedStep(s)) && QuantumOk(SchedStep(s)) && LevelsOk(SchedStep(s).procs)
  {
  }

  lemma LowStep(s: Sys)
    requires Inv(s) && s.ctl.Lo?
    ensures CtlOk(SchedStep(s)) && QuantumOk(SchedStep(s)) && LevelsOk(SchedStep(s).procs)
  {
  }

  // Back in the scheduler, nobody is RUNNING.
  lemma BackCtl(s: Sys)
    requires RunningNow(s.ctl) && NoneRunning(s.procs) && s.ran && s.ctl.r < |s.procs| && LevelsOk(s.procs)
    requires s.grt == s.ctl.RunHigh? && (s.ctl.RunMed? ==> s.frr) && (s.ctl.RunLo? ==> !s.frr)
    ensures CtlOk(Back(s)) && QuantumOk(Back(s)) && LevelsOk(Back(s).procs)
  {
  }

  lemma TimerKeeps(s: Sys)
    requires Inv(s) && RunningNow(s.ctl)
    ensures var u := TimerStep(s); |u.procs| == |s.procs| && CtlOk(u) && QuantumOk(u) && LevelsOk(u.procs)
  {
    var p := s.procs[s.ctl.r].(rtime := (s.procs[s.ctl.r].rtime + 1) % WRAP);
    if p.level != HIGH && p.counter >= QUANTA {
      BackCtl(s.(ticks := (s.ticks + 1) % WRAP, procs := s.procs[s.ctl.r := p.(counter := 0, state := Runnable)],
          taken := s.taken + 1));
    }
  }

  // Leaving the CPU other than by yield.
  lemma LeaveKeeps(s: Sys, st: State)
    requires Inv(s) && RunningNow(s.ctl) && st != Running
    ensures var u := Back(SetState(s, s.ctl.r, st)); CtlOk(u) && QuantumOk(u) && LevelsOk(u.procs)
  {
    BackCtl(SetState(s, s.ctl.r, st));
  }

  // The running process goes on running, on its counter.
  lemma GoesOn(s: Sys, t: Table)
    requires CtlOk(s) && QuantumOk(s) && RunningNow(s.ctl) && |t| == |s.procs| && LevelsOk(t)
    requires t[s.ctl.r].state.Running? && t[s.ctl.r].counter == s.procs[s.ctl.r].counter
    requires forall i | 0 <= i < |t| && i != s.ctl.r && t[i].state.Running? :: s.procs[i].state.Running?
    ensures CtlOk(s.(procs := t)) && QuantumOk(s.(procs := t))
  {
  }

  // Steps that touch another slot, or only the running process's level.
  lemma OtherKeeps(s: Sys, a: Action)
    requires Inv(s) && Plain(s, a).Some? && !a.Sched? && !a.Timer? && !a.Block? && !a.Die?
    ensures var u := Plain(s, a).value; |u.procs| == |s.procs| && CtlOk(u) && QuantumOk(u) && LevelsOk(u.procs)
  {
    if RunningNow(s.ctl) {
      GoesOn(s, Plain(s, a).value.procs);
    }
  }

  lemma PlainKeeps(s: Sys, a: Action)
    requires Inv(s) && Plain(s, a).Some?
    ensures var u := Plain(s, a).value; |u.procs| == |s.procs| && CtlOk(u) && QuantumOk(u) && LevelsOk(u.procs)
  {
    if a.Sched? {
      if s.ctl.Idle? { RoundStarts(s); } else if s.ctl.Med? { MediumStep(s); } else { LowStep(s); }
    } else if a.Timer? {
      TimerKeeps(s);
    } else if a.Block? {
      LeaveKeeps(s, Sleeping);
    } else if a.Die? {
      LeaveKeeps(s, Zombie);
    } else {
      OtherKeeps(s, a);
    }
  }

  /* ---- waiting ---- */

  lemma BeforeBound(s: Sys, p: nat)
    requires CtlOk(s) && p < |s.procs|
    ensures Before(s, p) <= |s.procs| - 1
  {
  }

  // The dispatched process is of p's own level and comes before it in the loop's order.
  lemma WaitDispatch(s: Sys, p: nat)
    requires Inv(s) && !RunningNow(s.ctl) && p < |s.procs| && RunningNow(SchedStep(s).ctl)
    requires var u := SchedStep(s); u.procs[p].state.Runnable? && !HigherReady(u.procs, p) && u.procs[p].level < HIGH
    ensures Before(SchedStep(s), p) + 1 <= Before(s, p) && s.procs[p].state.Runnable?
  {
    DispatchIsRight(s);
    var u := SchedStep(s);
    assert Ready(u.procs[u.ctl.r]);
  }

  // A step past a slot that is not dispatched does not put p further back.
  lemma WaitScan(s: Sys, p: nat)
    requires Inv(s) && !RunningNow(s.ctl) && p < |s.procs| && !RunningNow(SchedStep(s).ctl)
    requires s.procs[p].state.Runnable? && s.procs[p].level < HIGH
    ensures Before(SchedStep(s), p) <= Before(s, p) && SchedStep(s).procs == s.procs
  {
  }

  // What steps other than the scheduler's do to the loop's position: nothing, or on to the next slot, or out of
  // the loop because of a process of a higher level.
  ghost predicate Moves(s: Sys, u: Sys) {
    || u.ctl == s.ctl
    || (s.ctl.RunHigh? && u.ctl.Idle?)
    || (s.ctl.RunMed? && (u.ctl == Med(s.ctl.r + 1) || (u.ctl.Idle? && AnyReady(u.procs, HIGH))))
    || (s.ctl.RunLo? && (u.ctl == Lo(s.ctl.r + 1)
        || (u.ctl.Idle? && (AnyReady(u.procs, HIGH) || AnyReady(u.procs, MEDIUM)))))
  }

  lemma EnvMoves(s: Sys, a: Action)
    requires Inv(s) && !a.Sched? && Plain(s, a).Some?
    ensures Moves(s, Plain(s, a).value)
  {
  }

  lemma EnvLevels(s: Sys, a: Action, p: nat)
    requires Inv(s) && !a.Sched? && Plain(s, a).Some? && p < |s.procs| == |Plain(s, a).value.procs|
    requires s.procs[p].state.Runnable?
    ensures Plain(s, a).value.procs[p].level == s.procs[p].level
  {
  }

  lemma WaitEnv(s: Sys, u: Sys, p: nat)
    requires Moves(s, u) && p < |s.procs| == |u.procs| && u.procs[p].level == s.procs[p].level < HIGH
    requires !HigherReady(u.procs, p)
    ensures Before(u, p) <= Before(s, p)
  {
  }

  // p is no further back than it was, after as many more dispatches.
  ghost predicate NoWorse(s: Sys, u: Sys, p: nat, more: nat)
    requires p < |s.procs| == |u.procs|
  {
    u.procs[p].state.Runnable? && !HigherReady(u.procs, p) && u.procs[p].level < HIGH ==>
      if s.procs[p].state.Runnable?
          then s.procs[p].level == u.procs[p].level && more + Before(u, p) <= Before(s, p) else more == 0
  }

  lemma EnvNoWorse(s: Sys, a: Action, p: nat)
    requires Inv(s) && !a.Sched? && Plain(s, a).Some? && p < |s.procs| == |Plain(s, a).value.procs|
    ensures NoWorse(s, Plain(s, a).value, p, 0)
  {
    if s.procs[p].state.Runnable? {
      EnvMoves(s, a);
      EnvLevels(s, a, p);
      var u := Plain(s, a).value;
      if !HigherReady(u.procs, p) && u.procs[p].level < HIGH { WaitEnv(s, u, p); }
    }
  }

  lemma SchedNoWorse(s: Sys, p: nat)
    requires Inv(s) && !RunningNow(s.ctl) && p < |s.procs| == |SchedStep(s).procs|
    ensures NoWorse(s, SchedStep(s), p, if RunningNow(SchedStep(s).ctl) then 1 else 0)
  {
    var u := SchedStep(s);
    if u.procs[p].state.Runnable? && !HigherReady(u.procs, p) && u.procs[p].level < HIGH {
      if RunningNow(u.ctl) { WaitDispatch(s, p); } else { WaitScan(s, p); }
    }
  }

  lemma WaitKept(s: Sys, u: Sys, p: nat, more: nat)
    requires p < |s.procs| == |u.procs| == |s.waited| && CtlOk(u) && WaitOk(s, p) && NoWorse(s, u, p, more)
    ensures WaitOk(u.(waited := Waits(u.procs, s.waited, more)), p)
  {
    BeforeBound(u, p);
  }

  lemma NextKeeps(s: Sys, a: Action)
    requires Inv(s) && Next(s, a).Some?
    ensures Inv(Next(s, a).value)
  {
    PlainKeeps(s, a);
    var u := Plain(s, a).value;
    forall p | 0 <= p < |s.procs|
      ensures WaitOk(Next(s, a).value, p)
    {
      if a.Sched? { SchedNoWorse(s, p); } else { EnvNoWorse(s, a, p); }
      WaitKept(s, u, p, if a.Sched? && RunningNow(u.ctl) then 1 else 0);
    }
  }

  lemma {:induction false} EveryRun(n: nat, acts: seq<Action>)
    requires n > 0 && Exec(n, acts).Some?
    ensures Inv(Exec(n, acts).value) && |Exec(n, acts).value.procs| == n
  {
    if acts != [] {
      var k := |acts| - 1;
      EveryRun(n, acts[..k]);
      NextKeeps(Exec(n, acts[..k]).value, acts[k]);
      PlainKeeps(Exec(n, acts[..k]).value, acts[k]);
    }
  }

  /* ---- the results ---- */

  /** Every dispatch in every run picks a RUNNABLE process of the highest level that has one, and of level HIGH
      the first with the smallest share. */
  lemma EveryDispatch(n: nat, acts: seq<Action>)
    requires n > 0 && Exec(n, acts).Some? && !RunningNow(Exec(n, acts).value.ctl)
    requires RunningNow(SchedStep(Exec(n, acts).value).ctl)
    ensures RightChoice(Exec(n, acts).value, SchedStep(Exec(n, acts).value).ctl.r)
    ensures var s, d := Exec(n, acts).value, SchedStep(Exec(n, acts).value).ctl.r;
            && d < |s.procs| && s.procs[d].state.Runnable?
            && (forall q | 0 <= q < |s.procs| && s.procs[q].state.Runnable? :: s.procs[q].level <= s.procs[d].level)
            && (s.procs[d].level == HIGH ==>
                  forall j | 0 <= j < |s.procs| && s.procs[j].state.Runnable? && s.procs[j].level == HIGH ::
                    RanNoMore(s.procs[d], s.procs[j], s.ticks))
            && (s.procs[d].level == HIGH ==>
                  forall j | 0 <= j < d && s.procs[j].state.Runnable? && s.procs[j].level == HIGH ::
                    RanLess(s.procs[d], s.procs[j], s.ticks))
  {
    EveryRun(n, acts);
    var s := Exec(n, acts).value;
    DispatchIsRight(s);
    var d := SchedStep(s).ctl.r;
    if s.procs[d].level == HIGH { FairestMeans(s.procs, s.ticks, d); }
  }

  /** A round that began with somebody RUNNABLE has dispatched somebody by the time it ends. */
  lemma EveryRoundRuns(n: nat, acts: seq<Action>)
    requires n > 0 && Exec(n, acts).Some? && Exec(n, acts).value.ctl.Idle?
    ensures Exec(n, acts).value.wanted ==> Exec(n, acts).value.ran
  {
    EveryRun(n, acts);
  }

  /** While no process of a higher level is ready, a RUNNABLE process of level LOW or MEDIUM sees at most
      NPROC - 1 other dispatches before its own. */
  lemma BoundedBypass(n: nat, acts: seq<Action>, p: nat)
    requires n > 0 && Exec(n, acts).Some? && p < |Exec(n, acts).value.procs| == |Exec(n, acts).value.waited|
    requires Exec(n, acts).value.procs[p].state.Runnable? && Exec(n, acts).value.procs[p].level < HIGH
    ensures Exec(n, acts).value.waited[p] <= n - 1
  {
    EveryRun(n, acts);
    var s := Exec(n, acts).value;
    assert WaitOk(s, p);
    assert CtlOk(s);
  }

  /** The interrupts that count against a running process number at most QUANTA; the next one ends its turn.  A
      process of level HIGH is never made to yield. */
  lemma QuantumEnds(n: nat, acts: seq<Action>)
    requires n > 0 && Exec(n, acts).Some? && RunningNow(Exec(n, acts).value.ctl)
    ensures var s := Exec(n, acts).value;
            && s.ctl.r < |s.procs| && s.taken <= QUANTA
            && (RunningNow(TimerStep(s).ctl) <==> s.taken < QUANTA || s.procs[s.ctl.r].level == HIGH)
  {
    EveryRun(n, acts);
  }
  /* ---- what the clocks count ---- */

  // Timer interrupts in the run.
  function Interrupts(acts: seq<Action>): nat {
    if acts == [] then 0
    else Interrupts(acts[..|acts| - 1]) + if acts[|acts| - 1].Timer? || acts[|acts| - 1].Tick? then 1 else 0
  }

  // Slot i is the one running, in whatever loop it was dispatched.
  predicate Runs(s: Sys, i: nat) {
    RunningNow(s.ctl) && s.ctl.r == i
  }

  // Those that slot i took while it ran, since fork last allocated it.
  ghost function RanFor(n: nat, acts: seq<Action>, i: nat): nat
    requires n > 0
  {
    if acts == [] then 0
    else
      var k := |acts| - 1;
      var s := Exec(n, acts[..k]);
      if s.None? || acts[k] == Alloc(i) then 0
      else RanFor(n, acts[..k], i) + if acts[k].Timer? && Runs(s.value, i) then 1 else 0
  }

  // The interrupts there had been when fork last allocated it.
  ghost function MadeAt(acts: seq<Action>, i: nat): nat {
    if acts == [] then 0
    else
      var k := |acts| - 1;
      if acts[k] == Alloc(i) then Interrupts(acts[..k]) else MadeAt(acts[..k], i)
  }

  // What a step does to the clock and to slot i's times.
  ghost predicate Clocked(s: Sys, a: Action, u: Sys, i: nat)
    requires i < |s.procs| == |u.procs|
  {
    && u.ticks == (if a.Timer? || a.Tick? then (s.ticks + 1) % WRAP else s.ticks)
    && u.procs[i].ctime == (if a == Alloc(i) then s.ticks else s.procs[i].ctime)
    && u.procs[i].rtime == if a == Alloc(i) then 0
        else if a.Timer? && Runs(s, i) then (s.procs[i].rtime + 1) % WRAP else s.procs[i].rtime
  }

  lemma DispatchClock(s: Sys, d: nat, c: Ctl, i: nat)
    requires d < |s.procs| && i < |s.procs|
    ensures |Dispatch(s, d, c).procs| == |s.procs| && Clocked(s, Sched, Dispatch(s, d, c), i)
  {
  }

  lemma RoundClock(s: Sys, i: nat)
    requires s.ctl.Idle? && i < |s.procs|
    ensures |SchedStep(s).procs| == |s.procs| && Clocked(s, Sched, SchedStep(s), i)
  {
    var f := Fairest(s.procs, s.ticks);
    if f.Some? { DispatchClock(s, f.value, RunHigh(f.value), i); }
  }

  lemma SchedClock(s: Sys, i: nat)
    requires !RunningNow(s.ctl) && i < |s.procs|
    ensures |SchedStep(s).procs| == |s.procs| && Clocked(s, Sched, SchedStep(s), i)
  {
    match s.ctl
    case Idle => RoundClock(s, i);
    case Med(k) => if k < |s.procs| { DispatchClock(s, k, RunMed(k), i); }
    case Lo(k) => if k < |s.procs| { DispatchClock(s, k, RunLo(k), i); }
  }

  lemma BackTimes(s: Sys)
    requires RunningNow(s.ctl)
    ensures Back(s).procs == s.procs && Back(s).ticks == s.ticks
  {
  }

  lemma TimerClock(s: Sys, i: nat)
    requires RunningNow(s.ctl) && s.ctl.r < |s.procs| && i < |s.procs|
    ensures |TimerStep(s).procs| == |s.procs| && Clocked(s, Timer, TimerStep(s), i)
  {
    var r := s.ctl.r;
    var p := s.procs[r].(rtime := (s.procs[r].rtime + 1) % WRAP);
    BackTimes(s.(ticks := (s.ticks + 1) % WRAP, procs := s.procs[r := p.(counter := 0, state := Runnable)],
                 taken := s.taken + 1));
  }

  lemma ClockStep(s: Sys, a: Action, i: nat)
    requires Plain(s, a).Some? && i < |s.procs|
    ensures |Plain(s, a).value.procs| == |s.procs| && Clocked(s, a, Plain(s, a).value, i)
  {
    if a.Sched? {
      SchedClock(s, i);
    } else if a.Timer? {
      TimerClock(s, i);
    }
  }

  lemma OneMoreTick(k: nat)
    ensures (k % WRAP + 1) % WRAP == (k + 1) % WRAP
  {
  }

  datatype Clock = Now | Worked | Created

  ghost predicate Shows(c: Clock, now: nat, p: Proc, ticks: nat, ran: nat, made: nat) {
    match c
    case Now => now == ticks % WRAP
    case Worked => p.rtime == ran % WRAP
    case Created => p.ctime == made % WRAP
  }

  // The clock and p's times, modulo 2^32.
  ghost predicate Counts(now: nat, p: Proc, ticks: nat, ran: nat, made: nat) {
    forall c: Clock :: Shows(c, now, p, ticks, ran, made)
  }

  lemma OpenCounts(now: nat, p: Proc, ticks: nat, ran: nat, made: nat)
    requires Counts(now, p, ticks, ran, made)
    ensures now == ticks % WRAP && p.rtime == ran % WRAP && p.ctime == made % WRAP
  {
    assert Shows(Now, now, p, ticks, ran, made) && Shows(Worked, now, p, ticks, ran, made);
    assert Shows(Created, now, p, ticks, ran, made);
  }

  lemma CountsStep(s: Sys, a: Action, i: nat, ticks: nat, ran: nat, made: nat)
    requires i < |s.procs| && Counts(s.ticks, s.procs[i], ticks, ran, made) && Next(s, a).Some?
    ensures |Next(s, a).value.procs| == |s.procs|
    ensures Counts(Next(s, a).value.ticks, Next(s, a).value.procs[i],
                   ticks + (if a.Timer? || a.Tick? then 1 else 0),
                   if a == Alloc(i) then 0 else ran + if a.Timer? && Runs(s, i) then 1 else 0,
                   if a == Alloc(i) then ticks else made)
  {
    OpenCounts(s.ticks, s.procs[i], ticks, ran, made);
    ClockStep(s, a, i);
    OneMoreTick(ticks);
    OneMoreTick(ran);
  }

  lemma CountMore(n: nat, acts: seq<Action>, s: Sys, i: nat)
    requires n > 0 && acts != [] && Exec(n, acts[..|acts| - 1]) == Some(s)
    ensures var k := |acts| - 1;
            && Interrupts(acts) == Interrupts(acts[..k]) + (if acts[k].Timer? || acts[k].Tick? then 1 else 0)
            && MadeAt(acts, i) == (if acts[k] == Alloc(i) then Interrupts(acts[..k]) else MadeAt(acts[..k], i))
            && RanFor(n, acts, i) == if acts[k] == Alloc(i) then 0
                else RanFor(n, acts[..k], i) + if acts[k].Timer? && Runs(s, i) then 1 else 0
  {
  }

  lemma {:induction false} CountsRun(n: nat, acts: seq<Action>, i: nat)
    requires n > 0 && Exec(n, acts).Some? && i < n
    ensures |Exec(n, acts).value.procs| == n
    ensures Counts(Exec(n, acts).value.ticks, Exec(n, acts).value.procs[i], Interrupts(acts), RanFor(n, acts, i),
                   MadeAt(acts, i))
  {
    if acts != [] {
      var k := |acts| - 1;
      var s := Exec(n, acts[..k]).value;
      CountsRun(n, acts[..k], i);
      CountsStep(s, acts[k], i, Interrupts(acts[..k]), RanFor(n, acts[..k], i), MadeAt(acts[..k], i));
      CountMore(n, acts, s, i);
    }
  }

  /** In every run the clock counts the timer interrupts, ctime is its value when the slot was last allocated, and
      rtime counts the interrupts that the process itself took, all modulo 2^32. */
  lemma ClocksCount(n: nat, acts: seq<Action>, i: nat)
    requires n > 0 && Exec(n, acts).Some? && i < n
    ensures var s := Exec(n, acts).value;
            && |s.procs| == n && s.ticks == Interrupts(acts) % WRAP
            && s.procs[i].rtime == RanFor(n, acts, i) % WRAP && s.procs[i].ctime == MadeAt(acts, i) % WRAP
  {
    CountsRun(n, acts, i);
    var s := Exec(n, acts).value;
    OpenCounts(s.ticks, s.procs[i], Interrupts(acts), RanFor(n, acts, i), MadeAt(acts, i));
  }

  /** fork starts a process at the highest level, with nothing run, and changes no other. */
  lemma ForkStartsHigh(s: Sys, i: nat)
    requires Next(s, Alloc(i)).Some?
    ensures i < |s.procs| == |Next(s, Alloc(i)).value.procs| && s.procs[i].state.Unused?
    ensures var p := Next(s, Alloc(i)).value.procs[i];
            p.state.Embryo? && p.level == HIGH && p.rtime == 0 && p.ctime == s.ticks
    ensures forall j | 0 <= j < |s.procs| && j != i :: Next(s, Alloc(i)).value.procs[j] == s.procs[j]
  {
  }

  /** nice takes the running process one level down, and from the lowest to the highest, and changes nothing else. */
  lemma NiceTurns(s: Sys)
    requires Next(s, Nice).Some?
    ensures RunningNow(s.ctl) && s.ctl.r < |s.procs| == |Next(s, Nice).value.procs|
    ensures var p, p' := s.procs[s.ctl.r], Next(s, Nice).value.procs[s.ctl.r];
            && (p.level == 2 ==> p'.level == 1) && (p.level == 1 ==> p'.level == 0) && (p.level == 0 ==> p'.level == 2)
            && p' == p.(level := p'.level)
    ensures forall i | 0 <= i < |s.procs| && i != s.ctl.r :: Next(s, Nice).value.procs[i] == s.procs[i]
  {
  }

}
