/** Pipes: the ring buffer with its wrapping counters, and the processes that sleep on it (pipe.c:11-121). */
module PipeBuffer {

  type Byte = x: int | 0 <= x < 256

  const PIPESIZE: nat := 512
  const WRAP: nat := 0x1_0000_0000

  function Min(a: nat, b: nat): nat {
    if a < b then a else b
  }

  // The counters wrap without disturbing positions, because PIPESIZE divides 2^32.
  lemma SamePosition(k: nat)
    ensures k % WRAP % PIPESIZE == k % PIPESIZE
  {
    assert k == WRAP * (k / WRAP) + k % WRAP;
    assert WRAP * (k / WRAP) == PIPESIZE * (0x80_0000 * (k / WRAP));
  }

  lemma NextCount(k: nat)
    ensures (k % WRAP + 1) % WRAP == (k + 1) % WRAP
  {
  }

  lemma FullIff(r: nat, w: nat)
    requires r <= w <= r + PIPESIZE
    ensures w % WRAP == (r % WRAP + PIPESIZE) % WRAP <==> w == r + PIPESIZE
    ensures r % WRAP == w % WRAP <==> r == w
  {
    var d := w - r;
    assert (r % WRAP + PIPESIZE) % WRAP == (r + PIPESIZE) % WRAP;
    if r % WRAP == w % WRAP { assert d % WRAP == 0; }
    if w % WRAP == (r + PIPESIZE) % WRAP { assert (PIPESIZE - d) % WRAP == 0; }
  }

  // Positions within one buffer's length of each other are different.
  lemma Apart(j: nat, k: nat)
    requires j < k < j + PIPESIZE
    ensures j % PIPESIZE != k % PIPESIZE
  {
  }

  // How a stretch of code that holds the pipe's lock ends.
  datatype WriteEnd = Wrote | WriterSleeps | WriteFails
  datatype ReadEnd = Read(bytes: seq<Byte>) | ReaderSleeps | ReadFails

  // How many bytes of src fit.
  function Fits(buf: seq<Byte>, src: seq<Byte>): nat
    requires |buf| <= PIPESIZE
  {
    Min(PIPESIZE - |buf|, |src|)
  }

  function WriteEnding(buf: seq<Byte>, src: seq<Byte>, readopen: bool, killed: bool): WriteEnd
    requires |buf| <= PIPESIZE
  {
    if Fits(buf, src) == |src| then Wrote else if !readopen || killed then WriteFails else WriterSleeps
  }

  function ReadEnding(buf: seq<Byte>, n: nat, writeopen: bool, killed: bool): ReadEnd {
    if buf == [] && writeopen then (if killed then ReadFails else ReaderSleeps) else Read(buf[..Min(n, |buf|)])
  }

  class Pipe {
    const data: array<Byte>
    var nread: nat
    var nwrite: nat
    var readopen: bool
    var writeopen: bool
    ghost var sent: seq<Byte>      // all bytes accepted so far
    ghost var got: seq<Byte>       // all bytes delivered so far

    ghost predicate Valid()
      reads this, data
    {
      && data.Length == PIPESIZE
      && |got| <= |sent| <= |got| + PIPESIZE && got == sent[..|got|]
      && nread == |got| % WRAP && nwrite == |sent| % WRAP
      && forall k | |got| <= k < |sent| :: data[k % PIPESIZE] == sent[k]
    }

    // What has been accepted and not delivered.
    ghost function Buffer(): seq<Byte>
      reads this, data
      requires Valid()
    {
      sent[|got|..]
    }

    // pipealloc.
    constructor ()
      ensures Valid() && fresh(data) && sent == got == [] && readopen && writeopen
    {
      data := new Byte[PIPESIZE](_ => 0);
      nread, nwrite, readopen, writeopen := 0, 0, true, true;
      sent, got := [], [];
    }

    method Put(b: Byte)
      requires Valid() && |sent| < |got| + PIPESIZE
      modifies this, data
      ensures Valid() && sent == old(sent) + [b] && got == old(got) && readopen == old(readopen)
      ensures writeopen == old(writeopen)
    {
      SamePosition(|sent|);
      NextCount(|sent|);
      forall k | |got| <= k < |sent| ensures k % PIPESIZE != |sent| % PIPESIZE { Apart(k, |sent|); }
      data[nwrite % PIPESIZE] := b;
      nwrite := (nwrite + 1) % WRAP;
      sent := sent + [b];
    }

    method Take() returns (b: Byte)
      requires Valid() && |got| < |sent|
      modifies this
      ensures Valid() && b == old(sent[|got|]) && got == old(got) + [b] && sent == old(sent)
      ensures readopen == old(readopen) && writeopen == old(writeopen)
    {
      SamePosition(|got|);
      NextCount(|got|);
      b := data[nread % PIPESIZE];
      nread := (nread + 1) % WRAP;
      got := got + [b];
    }

    /** pipewrite from acquiring the lock, or waking up with it, to sleeping or returning: as much as fits is
        accepted, in order. */
    method WriteSome(src: seq<Byte>, killed: bool) returns (k: nat, end: WriteEnd)
      requires Valid()
      modifies this, data
      ensures Valid() && k == Fits(old(Buffer()), src) && sent == old(sent) + src[..k] && got == old(got)
      ensures Buffer() == old(Buffer()) + src[..k] && readopen == old(readopen) && writeopen == old(writeopen)
      ensures end == WriteEnding(old(Buffer()), src, readopen, killed)
      ensures k <= |src| && (k == |src| || |Buffer()| == PIPESIZE)
      ensures (end.Wrote? <==> k == |src|) && (end.WriteFails? <==> k < |src| && (!readopen || killed))
    {
      k := 0;
      while k < |src|
        invariant Valid() && 0 <= k <= |src| && sent == old(sent) + src[..k] && got == old(got)
        invariant readopen == old(readopen) && writeopen == old(writeopen)
      {
        FullIff(|got|, |sent|);
        if nwrite == (nread + PIPESIZE) % WRAP {
          return k, if !readopen || killed then WriteFails else WriterSleeps;
        }
        Put(src[k]);
        k := k + 1;
      }
      return k, Wrote;
    }

    /** piperead in the same way: what is delivered are the oldest bytes not delivered yet. */
    method ReadSome(n: nat, killed: bool) returns (end: ReadEnd)
      requires Valid()
      modifies this
      ensures Valid() && sent == old(sent) && readopen == old(readopen) && writeopen == old(writeopen)
      ensures end == ReadEnding(old(Buffer()), n, writeopen, killed)
      ensures got == old(got) + if end.Read? then end.bytes else []
      ensures Buffer() == if end.Read? then old(Buffer())[|end.bytes|..] else old(Buffer())
      ensures end.Read? ==> end.bytes <= old(Buffer()) && |end.bytes| <= n && (|end.bytes| == n || Buffer() == [])
      ensures end.Read? <==> old(Buffer()) != [] || !writeopen
      ensures end.ReadFails? <==> !end.Read? && killed
    {
      FullIff(|got|, |sent|);
      if nread == nwrite && writeopen {
        return if killed then ReadFails else ReaderSleeps;
      }
      var out: seq<Byte>, i := [], 0;
      while i < n
        invariant Valid() && 0 <= i <= n && |out| == i && sent == old(sent) && got == old(got) + out
        invariant readopen == old(readopen) && writeopen == old(writeopen)
      {
        FullIff(|got|, |sent|);
        if nread == nwrite { break; }
        var b := Take();
        out := out + [b];
        i := i + 1;
      }
      assert out == old(Buffer())[..|out|];
      return Read(out);
    }

    // pipeclose; `freed` says that the page goes back to the free list.
    method Close(writable: bool) returns (freed: bool)
      requires Valid()
      modifies this
      ensures Valid() && sent == old(sent) && got == old(got)
      ensures writeopen == (old(writeopen) && !writable) && readopen == (old(readopen) && writable)
      ensures freed <==> if writable then !old(readopen) else !old(writeopen)
    {
      if writable {
        writeopen := false;
      } else {
        readopen := false;
      }
      freed := !readopen && !writeopen;
    }
  }
}

/** Any number of processes reading and writing one pipe. */
module PipeRuns {
  import opened Options
  import opened PipeBuffer

  // Outside the pipe's code, or in pipewrite with src still to write, or in piperead for n bytes; not awake means
  // asleep on the pipe and not woken.
  datatype Who = Out | Writer(src: seq<Byte>, awake: bool) | Reader(n: nat, awake: bool)

  datatype Sys = Sys(buf: seq<Byte>, readopen: bool, writeopen: bool, procs: seq<Who>, killed: seq<bool>,
                     sent: seq<Byte>, got: seq<Byte>)

  datatype Action =
    | StartWrite(p: nat, src: seq<Byte>) | StartRead(p: nat, n: nat)
    | Step(p: nat)                    // runs holding the lock until it sleeps or returns
    | CloseWrite | CloseRead | Kill(p: nat)

  function Woken(w: Who): Who {
    match w
    case Out => Out
    case Writer(src, _) => Writer(src, true)
    case Reader(n, _) => Reader(n, true)
  }

  // wakeup on the channel that readers sleep on, and on the one that writers sleep on
  function WakeReaders(procs: seq<Who>): (r: seq<Who>)
    ensures |r| == |procs|
  {
    seq(|procs|, i requires 0 <= i < |procs| => if procs[i].Reader? then Woken(procs[i]) else procs[i])
  }

  function WakeWriters(procs: seq<Who>): (r: seq<Who>)
    ensures |r| == |procs|
  {
    seq(|procs|, i requires 0 <= i < |procs| => if procs[i].Writer? then Woken(procs[i]) else procs[i])
  }

  predicate AnyWriter(procs: seq<Who>) {
    exists i | 0 <= i < |procs| :: procs[i].Writer?
  }

  predicate AnyReader(procs: seq<Who>) {
    exists i | 0 <= i < |procs| :: procs[i].Reader?
  }

  function WriteStep(s: Sys, p: nat): Sys
    requires p < |s.procs| == |s.killed| && s.procs[p].Writer? && |s.buf| <= PIPESIZE
  {
    var src := s.procs[p].src;
    var k := Fits(s.buf, src);
    var s1 := s.(buf := s.buf + src[..k], sent := s.sent + src[..k]);
    match WriteEnding(s.buf, src, s.readopen, s.killed[p])
    case Wrote => s1.(procs := WakeReaders(s.procs)[p := Out])
    case WriteFails => s1.(procs := s.procs[p := Out])
    case WriterSleeps => s1.(procs := WakeReaders(s.procs)[p := Writer(src[k..], false)])
  }

  function ReadStep(s: Sys, p: nat): Sys
    requires p < |s.procs| == |s.killed| && s.procs[p].Reader?
  {
    match ReadEnding(s.buf, s.procs[p].n, s.writeopen, s.killed[p])
    case Read(bytes) => s.(buf := s.buf[|bytes|..], got := s.got + bytes, procs := WakeWriters(s.procs)[p := Out])
    case ReaderSleeps => s.(procs := s.procs[p := Reader(s.procs[p].n, false)])
    case ReadFails => s.(procs := s.procs[p := Out])
  }

  // An end is closed when its last file reference goes, so nobody is in a call on that end.
  function Next(s: Sys, a: Action): Option<Sys> {
    if |s.killed| != |s.procs| || |s.buf| > PIPESIZE then None
    else
      match a
      case StartWrite(p, src) =>
        if p < |s.procs| && s.procs[p].Out? && s.writeopen then Some(s.(procs := s.procs[p := Writer(src, true)]))
            else None
      case StartRead(p, n) =>
        if p < |s.procs| && s.procs[p].Out? && s.readopen then Some(s.(procs := s.procs[p := Reader(n, true)]))
            else None
      case Step(p) =>
        if p >= |s.procs| || s.procs[p].Out? || !s.procs[p].awake then None
        else if s.procs[p].Writer? then Some(WriteStep(s, p)) else Some(ReadStep(s, p))
      case CloseWrite =>
        if AnyWriter(s.procs) then None else Some(s.(writeopen := false, procs := WakeReaders(s.procs)))
      case CloseRead =>
        if AnyReader(s.procs) then None else Some(s.(readopen := false, procs := WakeWriters(s.procs)))
      case Kill(p) =>
        if p >= |s.procs| then None
        else
          Some(s.(killed := s.killed[p := true], procs := s.procs[p := Woken(s.procs[p])]))
  }

  function Boot(n: nat): Sys {
    Sys([], true, true, seq(n, _ => Out), seq(n, _ => false), [], [])
  }

  function Exec(n: nat, acts: seq<Action>): Option<Sys> {
    if acts == [] then Some(Boot(n))
    else
      match Exec(n, acts[..|acts| - 1])
      case None => None
      case Some(s) => Next(s, acts[|acts| - 1])
  }

  /* ---- the invariant ---- */

  predicate SleepingWriter(w: Who) { w.Writer? && !w.awake }

  predicate SleepingReader(w: Who) { w.Reader? && !w.awake }

  predicate SomeReaderSleeps(procs: seq<Who>) {
    exists i | 0 <= i < |procs| :: SleepingReader(procs[i])
  }

  // Whoever is in a call has that end open; a writer that sleeps un-woken sleeps on a full buffer.
  ghost predicate ProcOk(s: Sys, i: nat)
    requires i < |s.procs|
  {
    && (s.procs[i].Writer? ==> s.writeopen) && (s.procs[i].Reader? ==> s.readopen)
    && (SleepingWriter(s.procs[i]) ==> |s.buf| == PIPESIZE && s.readopen && !SomeReaderSleeps(s.procs))
  }

  ghost predicate Inv(s: Sys) {
    && |s.killed| == |s.procs| && |s.buf| <= PIPESIZE && s.sent == s.got + s.buf
    && forall i | 0 <= i < |s.procs| :: ProcOk(s, i)
  }

  lemma WriteKeeps(s: Sys, p: nat)
    requires Inv(s) && p < |s.procs| && s.procs[p].Writer? && s.procs[p].awake
    ensures Inv(WriteStep(s, p))
  {
    var s' := WriteStep(s, p);
    assert ProcOk(s, p);
    forall i | 0 <= i < |s'.procs|
      ensures ProcOk(s', i)
    {
      assert ProcOk(s, i);
    }
  }

  lemma ReadKeeps(s: Sys, p: nat)
    requires Inv(s) && p < |s.procs| && s.procs[p].Reader? && s.procs[p].awake
    ensures Inv(ReadStep(s, p))
  {
    var s' := ReadStep(s, p);
    assert ProcOk(s, p);
    forall i | 0 <= i < |s'.procs|
      ensures ProcOk(s', i)
    {
      assert ProcOk(s, i);
    }
  }

  lemma OtherKeeps(s: Sys, a: Action)
    requires Inv(s) && Next(s, a).Some? && !a.Step?
    ensures Inv(Next(s, a).value)
  {
    var s' := Next(s, a).value;
    forall i | 0 <= i < |s'.procs|
      ensures ProcOk(s', i)
    {
      assert ProcOk(s, i);
    }
  }

  lemma NextKeeps(s: Sys, a: Action)
    requires Inv(s) && Next(s, a).Some?
    ensures Inv(Next(s, a).value)
  {
    if !a.Step? {
      OtherKeeps(s, a);
    } else if s.procs[a.p].Writer? {
      WriteKeeps(s, a.p);
    } else {
      ReadKeeps(s, a.p);
    }
  }

  lemma {:induction false} EveryRun(n: nat, acts: seq<Action>)
    requires Exec(n, acts).Some?
    ensures Inv(Exec(n, acts).value)
  {
    if acts != [] {
      var k := |acts| - 1;
      EveryRun(n, acts[..k]);
      NextKeeps(Exec(n, acts[..k]).value, acts[k]);
    }
  }

  /** First in, first out, in every interleaving: what has been read is a prefix of what has been accepted, and
      the buffer holds the rest. */
  lemma {:induction false} Fifo(n: nat, acts: seq<Action>)
    requires Exec(n, acts).Some?
    ensures Exec(n, acts).value.sent == Exec(n, acts).value.got + Exec(n, acts).value.buf
    ensures |Exec(n, acts).value.buf| <= PIPESIZE
  {
    EveryRun(n, acts);
  }

  /** What a step of a reader does: it returns if and only if there are bytes, or the writing end is closed, or it has
      been killed; it then has the bytes it asked for or leaves an empty buffer, and a return that is no failure wakes
      the writers.  Otherwise it sleeps. */
  lemma ReadReturns(s: Sys, s': Sys, p: nat) returns (k: nat)
    requires p < |s.procs| == |s.killed| && s.procs[p].Reader? && Next(s, Step(p)) == Some(s')
    ensures k <= |s.buf| && s'.got == s.got + s.buf[..k] && s'.buf == s.buf[k..] && s'.sent == s.sent
    ensures |s'.procs| == |s.procs| && k <= s.procs[p].n
    ensures s'.procs[p].Out? <==> s.buf != [] || !s.writeopen || s.killed[p]
    ensures s'.procs[p].Out? ==> k == s.procs[p].n || s'.buf == []
    ensures !s'.procs[p].Out? ==> s'.procs[p] == Reader(s.procs[p].n, false)
    ensures forall i | 0 <= i < |s.procs| && i != p ::
        s'.procs[i] == if s.procs[i].Writer? && (s.buf != [] || !s.writeopen) then Writer(s.procs[i].src, true)
            else s.procs[i]
  {
    var end := ReadEnding(s.buf, s.procs[p].n, s.writeopen, s.killed[p]);
    k := if end.Read? then |end.bytes| else 0;
  }

  /** What a step of a writer does: it returns if and only if all its bytes are accepted, or the reading end is closed
      or it has been killed; otherwise it sleeps on a full buffer with the rest still to write.  Unless it fails, the
      readers are woken. */
  lemma WriteReturns(s: Sys, s': Sys, p: nat) returns (k: nat)
    requires p < |s.procs| == |s.killed| && s.procs[p].Writer? && Next(s, Step(p)) == Some(s')
    ensures k <= |s.procs[p].src| && s'.sent == s.sent + s.procs[p].src[..k] && s'.buf == s.buf + s.procs[p].src[..k]
    ensures s'.got == s.got && |s'.procs| == |s.procs| && (k == |s.procs[p].src| || |s'.buf| == PIPESIZE)
    ensures s'.procs[p].Out? <==> k == |s.procs[p].src| || !s.readopen || s.killed[p]
    ensures !s'.procs[p].Out? ==> s'.procs[p] == Writer(s.procs[p].src[k..], false)
    ensures forall i | 0 <= i < |s.procs| && i != p ::
        s'.procs[i] == if s.procs[i].Reader? && (k == |s.procs[p].src| || !s'.procs[p].Out?)
            then Reader(s.procs[i].n, true) else s.procs[i]
  {
    k := Fits(s.buf, s.procs[p].src);
  }

  /** A reader and a writer never sleep on the pipe together with nobody having woken either; a writer sleeps only
      on a full buffer.  This holds even in runs with kill. */
  lemma NeverBothAsleep(n: nat, acts: seq<Action>, i: nat, j: nat)
    requires Exec(n, acts).Some? && i < |Exec(n, acts).value.procs| && j < |Exec(n, acts).value.procs|
    requires SleepingWriter(Exec(n, acts).value.procs[i])
    ensures !SleepingReader(Exec(n, acts).value.procs[j]) && |Exec(n, acts).value.buf| == PIPESIZE
  {
    EveryRun(n, acts);
    assert ProcOk(Exec(n, acts).value, i);
  }

  /* ---- a reader that sleeps has nothing to read ---- */

  ghost predicate ReadersOk(s: Sys) {
    SomeReaderSleeps(s.procs) ==> s.buf == [] && s.writeopen
  }

  // A killed writer fills the buffer over a sleeping reader and returns without waking it.
  predicate Abandons(s: Sys, a: Action) {
    && a.Step? && a.p < |s.procs| == |s.killed| && s.procs[a.p].Writer? && s.killed[a.p]
    && |s.procs[a.p].src| > PIPESIZE && SomeReaderSleeps(s.procs)
  }

  lemma StillSleeps(procs: seq<Who>, p: nat, w: Who)
    requires p < |procs| && !procs[p].Reader? && !SleepingReader(w)
    ensures SomeReaderSleeps(procs[p := w]) <==> SomeReaderSleeps(procs)
  {
    if SomeReaderSleeps(procs) {
      var i :| 0 <= i < |procs| && SleepingReader(procs[i]);
      assert SleepingReader(procs[p := w][i]);
    }
  }

  // A reader can be asleep with bytes in the buffer only after such a step.
  lemma ReadersKeptIff(s: Sys, a: Action)
    requires Inv(s) && ReadersOk(s) && Next(s, a).Some?
    ensures ReadersOk(Next(s, a).value) <==> !Abandons(s, a)
  {
    var s' := Next(s, a).value;
    if i :| 0 <= i < |s.procs| && SleepingReader(s.procs[i]) {
      assert ProcOk(s, i);
    }
    if a.Step? && s.procs[a.p].Writer? {
      assert ProcOk(s, a.p);
      StillSleeps(s.procs, a.p, Out);
    }
  }

  predicate KillFree(acts: seq<Action>) {
    forall i | 0 <= i < |acts| :: !acts[i].Kill?
  }

  /** In runs without kill, a reader that sleeps un-woken has nothing to read and somebody who may still write. */
  lemma {:induction false} NoLostRead(n: nat, acts: seq<Action>)
    requires Exec(n, acts).Some? && KillFree(acts)
    ensures ReadersOk(Exec(n, acts).value)
    ensures forall i | 0 <= i < |Exec(n, acts).value.killed| :: !Exec(n, acts).value.killed[i]
  {
    if acts != [] {
      var k := |acts| - 1;
      NoLostRead(n, acts[..k]);
      EveryRun(n, acts[..k]);
      ReadersKeptIff(Exec(n, acts[..k]).value, acts[k]);
    }
  }

  /** With kill it can be left asleep over a full buffer. */
  lemma KilledWriterLosesRead()
    ensures var acts := [StartRead(0, 1), Step(0), StartWrite(1, seq(PIPESIZE + 1, _ => 7)), Kill(1), Step(1)];
            Exec(2, acts).Some? && !ReadersOk(Exec(2, acts).value)
  {
    var src: seq<Byte> := seq(PIPESIZE + 1, _ => 7);
    var acts := [StartRead(0, 1), Step(0), StartWrite(1, src), Kill(1), Step(1)];
    assert acts[..4][..3] == acts[..3] && acts[..3][..2] == acts[..2] && acts[..2][..1] == acts[..1]
        && acts[..1][..0] == [];
    var s1 := Next(Boot(2), acts[0]).value;
    assert Exec(2, acts[..1]) == Some(s1);
    var s2 := Next(s1, acts[1]).value;
    assert Exec(2, acts[..2]) == Some(s2);
    var s3 := Next(s2, acts[2]).value;
    assert Exec(2, acts[..3]) == Some(s3);
    var s4 := Next(s3, acts[3]).value;
    assert Exec(2, acts[..4]) == Some(s4);
    assert SleepingReader(s4.procs[0]);
    EveryRun(2, acts[..4]);
    ReadersKeptIff(s4, acts[4]);
  }
}
