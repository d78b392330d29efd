/**
 Pipes of kernel/pipe.c: pipewrite, piperead and pipeclose by any number of processes over one ring buffer, as clients
 of sleep and wakeup. Bytes come out in the order they went in, each once, across the wrap-around of the 32-bit
 counters; and nobody sleeps who could proceed, unless a killed writer was cut off between two bytes.
 */
module Pipe {
  import opened Collections
  import SW = SleepWakeup

  type Proc = SW.Proc
  type Byte = nat

  const PIPESIZE: nat := 512
  const UINT: nat := 0x1_0000_0000

  /** The two channels: the addresses of nread, where readers sleep, and of nwrite, where writers sleep. */
  const NREAD: SW.Chan := 0
  const NWRITE: SW.Chan := 1

  /** struct pipe; written and taken are all the bytes that have gone in and come out. */
  datatype Buf = Buf(
    data: seq<Byte>,
    nread: nat,
    nwrite: nat,
    readopen: bool,
    writeopen: bool,
    written: seq<Byte>,
    taken: seq<Byte>
  )

  datatype Call = NoCall | Writing | Reading | ClosingRead | ClosingWrite

  /**
   Where a process is in its call. Top: at the head of its while loop, or in the sleep that the loop calls. Full: a
   writer has called wakeup(&pi->nread) and will sleep. Copy: a reader in its copying loop. Done: out of the loop.
   Woke: it has made its last call to wakeup. Entered: pipeclose with the lock. Shut: pipeclose has cleared its flag.
   */
  datatype Place = Top | Full | Copy | Done | Woke | Entered | Shut

  /** A call in progress, its byte count n and its counter i. */
  datatype Job = Job(call: Call, at: Place, n: int, i: nat)

  const IDLE: Job := Job(NoCall, Top, 0, 0)

  datatype Sys = Sys(sys: SW.Sys, b: Buf, job: seq<Job>, killed: set<Proc>)

  datatype Op =
    | StartWrite(n: int)
    | WriteFail
    | WriteFull
    | WriteSleep
    | WriteByte(c: Byte)
    | WriteStop
    | StartRead(n: int)
    | ReadFail
    | ReadSleep
    | ReadGo
    | ReadByte(fault: bool)
    | ReadStop
    | StartClose(writable: bool)
    | CloseSet
    | LastWake
    | Finish
    | KillIt
    | Inner(inner: SW.Step)

  datatype Step = Step(p: Proc, op: Op)

  predicate IsFull(b: Buf) {
    b.nwrite == (b.nread + PIPESIZE) % UINT
  }

  predicate IsEmpty(b: Buf) {
    b.nread == b.nwrite
  }

  /** The channels whose waiters could proceed. */
  function Ready(b: Buf): set<SW.Chan> {
    (if !IsEmpty(b) || !b.writeopen then {NREAD} else {}) + (if !IsFull(b) || !b.readopen then {NWRITE} else {})
  }

  /** The position at which the code does op. */
  predicate Here(j: Job, op: Op) {
    match op
    case StartWrite(_) => j == IDLE
    case WriteFail => j.call == Writing && j.at == Top
    case WriteFull => j.call == Writing && j.at == Top
    case WriteSleep => j.call == Writing && j.at == Full
    case WriteByte(_) => j.call == Writing && j.at == Top
    case WriteStop => j.call == Writing && j.at == Top
    case StartRead(_) => j == IDLE
    case ReadFail => j.call == Reading && j.at == Top
    case ReadSleep => j.call == Reading && j.at == Top
    case ReadGo => j.call == Reading && j.at == Top
    case ReadByte(_) => j.call == Reading && j.at == Copy
    case ReadStop => j.call == Reading && j.at == Copy
    case StartClose(_) => j == IDLE
    case CloseSet => (j.call == ClosingRead || j.call == ClosingWrite) && j.at == Entered
    case LastWake => j.at == Done || j.at == Shut
    case Finish => j.at == Woke
    case KillIt => true
    case Inner(_) => true
  }

  /** The branch the code takes there. A write also stops when copyin fails. */
  predicate Branch(b: Buf, j: Job, killed: bool, op: Op) {
    match op
    case StartWrite(_) => b.writeopen
    case WriteFail => j.i < j.n && (!b.readopen || killed)
    case WriteFull => j.i < j.n && b.readopen && !killed && IsFull(b)
    case WriteByte(_) => j.i < j.n && b.readopen && !killed && !IsFull(b)
    case WriteStop => j.i < j.n ==> b.readopen && !killed && !IsFull(b)
    case StartRead(_) => b.readopen
    case ReadFail => IsEmpty(b) && b.writeopen && killed
    case ReadSleep => IsEmpty(b) && b.writeopen && !killed
    case ReadGo => !(IsEmpty(b) && b.writeopen)
    case ReadByte(_) => j.i < j.n && !IsEmpty(b)
    case ReadStop => j.i >= j.n || IsEmpty(b)
    case StartClose(writable) => if writable then b.writeopen else b.readopen
    case _ => true
  }

  /** The buffer after op. */
  function NewBuf(b: Buf, j: Job, op: Op): Buf {
    match op
    case WriteByte(c) =>
      b.(data := Put(b.data, b.nwrite % PIPESIZE, c), nwrite := (b.nwrite + 1) % UINT, written := b.written + [c])
    case ReadByte(_) =>
      b.(nread := (b.nread + 1) % UINT, taken := b.taken + [Get(b.data, b.nread % PIPESIZE)])
    case CloseSet => if j.call == ClosingWrite then b.(writeopen := false) else b.(readopen := false)
    case _ => b
  }

  function Put(data: seq<Byte>, i: nat, c: Byte): seq<Byte> {
    if i < |data| then data[i := c] else data
  }

  function Get(data: seq<Byte>, i: nat): Byte {
    if i < |data| then data[i] else 0
  }

  /** The position after op. */
  function NewJob(j: Job, op: Op): Job {
    match op
    case StartWrite(n) => Job(Writing, Top, n, 0)
    case WriteFail => IDLE
    case WriteFull => j.(at := Full)
    case WriteSleep => j.(at := Top)
    case WriteByte(_) => j.(i := j.i + 1)
    case WriteStop => j.(at := Done)
    case StartRead(n) => Job(Reading, Top, n, 0)
    case ReadFail => IDLE
    case ReadSleep => j
    case ReadGo => j.(at := Copy)
    case ReadByte(fault) => if fault then j.(at := Done) else j.(i := j.i + 1)
    case ReadStop => j.(at := Done)
    case StartClose(writable) => Job(if writable then ClosingWrite else ClosingRead, Entered, 0, 0)
    case CloseSet => j.(at := Shut)
    case LastWake => j.(at := Woke)
    case Finish => IDLE
    case KillIt => j
    case Inner(_) => j
  }

  /** The channel that a call wakes: what a writer or the closing of the write end makes possible is reading. */
  function Wakes(j: Job): SW.Chan {
    if j.call == Writing || j.call == ClosingWrite then NREAD else NWRITE
  }

  /** What the step does to the processes and the pipe's spinlock. */
  function Low(s: Sys, step: Step): SW.Step
    requires step.p < |s.job|
  {
    var p, j, op := step.p, s.job[step.p], step.op;
    match op
    case StartWrite(_) => SW.Acquire(p)
    case WriteFail => SW.Release(p)
    case WriteFull => SW.Wakeup(p, NREAD)
    case WriteSleep => SW.Sleep(p, NWRITE)
    case WriteByte(_) => SW.Change(p, Ready(NewBuf(s.b, j, op)), s.sys.owed + {Wakes(j)})
    case WriteStop => SW.Change(p, s.sys.ready, s.sys.owed)
    case StartRead(_) => SW.Acquire(p)
    case ReadFail => SW.Release(p)
    case ReadSleep => SW.Sleep(p, NREAD)
    case ReadGo => SW.Change(p, s.sys.ready, s.sys.owed)
    case ReadByte(_) => SW.Change(p, Ready(NewBuf(s.b, j, op)), s.sys.owed + {Wakes(j)})
    case ReadStop => SW.Change(p, s.sys.ready, s.sys.owed)
    case StartClose(_) => SW.Acquire(p)
    case CloseSet => SW.Change(p, Ready(NewBuf(s.b, j, op)), s.sys.owed + {Wakes(j)})
    case LastWake => SW.Wakeup(p, Wakes(j))
    case Finish => SW.Release(p)
    case KillIt => SW.Kill(p)
    case Inner(inner) => inner
  }

  predicate Uses(j: Job, writable: bool) {
    if writable then j.call == Writing || j.call == ClosingWrite else j.call == Reading || j.call == ClosingRead
  }

  /**
   Nobody closes an end that is in use, and nobody uses one that is being closed: pipeclose runs when fileclose drops
   the last reference to the end.
   */
  ghost predicate EndsRespected(s: Sys, op: Op) {
    match op
    case StartWrite(_) => forall q :: 0 <= q < |s.job| ==> s.job[q].call != ClosingWrite
    case StartRead(_) => forall q :: 0 <= q < |s.job| ==> s.job[q].call != ClosingRead
    case StartClose(writable) => forall q :: 0 <= q < |s.job| ==> !Uses(s.job[q], writable)
    case _ => true
  }

  /** The steps inside sleep, wakeup and the scheduler. */
  predicate IsInner(s: SW.Sys, step: SW.Step) {
    || step.LockSelf? || step.DropLk? || step.MarkSleeping? || step.SwitchOff? || step.Visit? || step.Return?
    || step.Dispatch? || step.Tidy?
    || (step.Acquire? && SW.At(s, step.p, SW.Wanting))
  }

  ghost predicate Enabled(s: Sys, step: Step) {
    && step.p < |s.job|
    && Here(s.job[step.p], step.op)
    && Branch(s.b, s.job[step.p], step.p in s.killed, step.op)
    && EndsRespected(s, step.op)
    && (step.op.Inner? ==> step.op.inner.p == step.p && IsInner(s.sys, step.op.inner))
    && SW.Enabled(s.sys, Low(s, step))
  }

  ghost function Do(s: Sys, step: Step): Sys
    requires Enabled(s, step)
  {
    Sys(SW.Do(s.sys, Low(s, step)),
        NewBuf(s.b, s.job[step.p], step.op),
        s.job[step.p := NewJob(s.job[step.p], step.op)],
        if step.op.KillIt? then s.killed + {step.p} else s.killed)
  }

  // Order and integrity of the bytes.

  ghost predicate RingOk(b: Buf) {
    && |b.data| == PIPESIZE
    && |b.taken| <= |b.written| <= |b.taken| + PIPESIZE
    && b.taken == b.written[..|b.taken|]
    && b.nread == |b.taken| % UINT
    && b.nwrite == |b.written| % UINT
    && (forall k :: |b.taken| <= k < |b.written| ==> b.data[k % PIPESIZE] == b.written[k])
  }

  lemma ModStep(a: nat, d: nat)
    requires d <= PIPESIZE
    ensures (a + d) % UINT == (if a % UINT + d < UINT then a % UINT + d else a % UINT + d - UINT) == (a % UINT + d) % UINT
  {
    assert a == UINT * (a / UINT) + a % UINT;
  }

  lemma ModSlot(a: nat)
    ensures (a % UINT) % PIPESIZE == a % PIPESIZE
  {
    assert a == PIPESIZE * (8388608 * (a / UINT)) + a % UINT;
  }

  lemma SlotsDiffer(k: nat, m: nat)
    requires k < m < k + PIPESIZE
    ensures k % PIPESIZE != m % PIPESIZE
  {
  }

  /** The counters, though they wrap around, tell an empty ring and a full one. */
  lemma CountersTell(b: Buf)
    requires RingOk(b)
    ensures IsEmpty(b) <==> |b.written| == |b.taken|
    ensures IsFull(b) <==> |b.written| == |b.taken| + PIPESIZE
  {
    ModStep(|b.taken|, |b.written| - |b.taken|);
    ModStep(|b.taken|, PIPESIZE);
  }

  lemma PutKeepsRing(b: Buf, j: Job, c: Byte)
    requires RingOk(b) && !IsFull(b)
    ensures RingOk(NewBuf(b, j, WriteByte(c)))
  {
    CountersTell(b);
    ModStep(|b.written|, 1);
    ModSlot(|b.written|);
    var b' := NewBuf(b, j, WriteByte(c));
    forall k | |b'.taken| <= k < |b'.written|
      ensures b'.data[k % PIPESIZE] == b'.written[k]
    {
      if k < |b.written| {
        SlotsDiffer(k, |b.written|);
      }
    }
  }

  lemma GetKeepsRing(b: Buf, j: Job, fault: bool)
    requires RingOk(b) && !IsEmpty(b)
    ensures RingOk(NewBuf(b, j, ReadByte(fault)))
  {
    CountersTell(b);
    ModStep(|b.taken|, 1);
    ModSlot(|b.taken|);
  }

  lemma StepRing(b: Buf, j: Job, killed: bool, op: Op)
    requires RingOk(b) && Branch(b, j, killed, op)
    ensures RingOk(NewBuf(b, j, op))
  {
    match op {
      case WriteByte(c) => PutKeepsRing(b, j, c);
      case ReadByte(fault) => GetKeepsRing(b, j, fault);
      case _ =>
    }
  }

  // Sleepers.

  predicate Sleepy(pc: SW.Pc, ch: SW.Chan) {
    !pc.Out? && !pc.Waking? && (pc.Called? || pc.Armed? || pc.Released? || pc.Switching? || pc.Asleep? ==> pc.ch == ch)
  }

  /** The positions in sleep and wakeup that a position in the call allows. */
  predicate PcFits(j: Job, pc: SW.Pc) {
    match j.call
    case NoCall => j == IDLE && pc == SW.Out
    case Writing =>
      match j.at {
        case Top => Sleepy(pc, NWRITE)
        case Full => pc == SW.In || pc.Waking?
        case Done => pc == SW.In
        case Woke => pc == SW.In || pc.Waking?
        case _ => false
      }
    case Reading =>
      match j.at {
        case Top => Sleepy(pc, NREAD)
        case Copy => pc == SW.In
        case Done => pc == SW.In
        case Woke => pc == SW.In || pc.Waking?
        case _ => false
      }
    case _ =>
      match j.at {
        case Entered => pc == SW.In
        case Shut => pc == SW.In
        case Woke => pc == SW.In || pc.Waking?
        case _ => false
      }
  }

  /** A place where the call may have made its channel ready without having called wakeup. */
  predicate MayOwe(j: Job) {
    || j.at == Done || j.at == Shut || j.at == Copy
    || (j.call == Writing && j.at == Top)
  }

  /** What the holder of the pipe's lock may owe. */
  predicate OwesOk(b: Buf, owed: set<SW.Chan>, j: Job) {
    && owed <= (if MayOwe(j) then {Wakes(j)} else {})
    && owed <= Ready(b)
    && (owed != {} && j.at == Top ==> b.readopen)
    && (j.at == Full ==> IsFull(b) && b.readopen)
  }

  ghost predicate JobOk(s: Sys, p: Proc)
    requires |s.job| == |s.sys.procs| && p < |s.job|
  {
    && PcFits(s.job[p], s.sys.procs[p].pc)
    && (s.sys.lk == Some(p) ==> OwesOk(s.b, s.sys.owed, s.job[p]))
  }

  ghost predicate Inv(s: Sys) {
    && SW.Inv(s.sys)
    && |s.job| == |s.sys.procs|
    && RingOk(s.b)
    && s.sys.ready == Ready(s.b)
    && (forall p {:trigger s.job[p]} :: 0 <= p < |s.job| ==> JobOk(s, p))
  }

  /** The step is not a writer returning without the wakeup it owes to a waiting reader. */
  ghost predicate Clean(s: Sys, step: Step) {
    step.op.WriteFail? ==> s.sys.owed == {} || SW.NobodyWaits(s.sys, NREAD)
  }

  lemma LkHolder(s: SW.Sys, p: Proc)
    requires SW.Inv(s) && p < |s.procs|
    ensures SW.HoldsLk(s.procs[p].pc) <==> s.lk == Some(p)
    ensures s.procs[p].state == SW.Sleeping ==> s.procs[p].pc.Asleep? || s.procs[p].pc.Switching?
    ensures s.lk == None ==> s.owed == {}
  {
    assert SW.ProcOk(s, p);
  }

  lemma StepDisciplined(s: Sys, step: Step)
    requires Inv(s) && Enabled(s, step) && Clean(s, step)
    ensures SW.Disciplined(s.sys, Low(s, step))
  {
    hide SW.Inv, SW.Do;
    assert JobOk(s, step.p);
    LkHolder(s.sys, step.p);
  }

  lemma StepReady(s: Sys, step: Step)
    requires Inv(s) && Enabled(s, step)
    ensures Do(s, step).sys.ready == Ready(Do(s, step).b)
  {
    hide SW.Inv, JobOk, Ready;
  }

  /** A process that the step does not belong to: its position stays, or it is woken, and it gains no lock. */
  lemma LowOther(s: SW.Sys, low: SW.Step, p: Proc)
    requires SW.Inv(s) && SW.Enabled(s, low) && p < |s.procs| && p != low.p
    ensures var s' := SW.Do(s, low);
            && |s'.procs| == |s.procs|
            && (s'.procs[p].pc == s.procs[p].pc || (s.procs[p].pc.Asleep? && s'.procs[p].pc == SW.Woken))
            && (s'.lk == Some(p) ==> s.lk == Some(p) && s'.owed == s.owed)
  {
    LkHolder(s, p);
    LkHolder(s, low.p);
    assert SW.ProcOk(s, p);
  }

  /** What the process that takes the step holds afterwards. */
  lemma LowSelf(s: SW.Sys, low: SW.Step)
    requires SW.Inv(s) && SW.Enabled(s, low)
    ensures var s' := SW.Do(s, low);
            && |s'.procs| == |s.procs|
            && (low.Acquire? ==> s'.procs[low.p].pc == SW.In && s'.owed == {})
            && (low.Release? ==> s'.procs[low.p].pc == SW.Out && s'.lk == None)
            && (low.Change? ==> s'.procs[low.p].pc == SW.In && s'.owed == low.owed)
            && (low.Sleep? ==> s'.procs[low.p].pc == SW.Called(low.ch) && s'.owed == s.owed)
            && (low.Wakeup? ==> s'.procs[low.p].pc.Waking? && s'.owed == s.owed - {low.ch})
  {
    hide SW.ProcOk;
  }

  /** The steps within sleep, wakeup, kill and the scheduler. */
  lemma LowInner(s: SW.Sys, low: SW.Step, j: Job)
    requires SW.Inv(s) && SW.Enabled(s, low) && (IsInner(s, low) || low.Kill?) && PcFits(j, s.procs[low.p].pc)
    ensures var s' := SW.Do(s, low);
            && |s'.procs| == |s.procs|
            && PcFits(j, s'.procs[low.p].pc)
            && (s'.lk == Some(low.p) ==> (low.Acquire? && s'.owed == {} && j.at == Top) || (s.lk == Some(low.p) && s'.owed == s.owed))
  {
    LkHolder(s, low.p);
  }

  /** A byte written can be read, a byte read makes room, and a closed end stops its waiters waiting. */
  lemma EffectReady(b: Buf, j: Job, killed: bool, op: Op)
    requires RingOk(b) && Here(j, op) && Branch(b, j, killed, op) && IsEffect(op)
    ensures Wakes(j) in Ready(NewBuf(b, j, op))
  {
    var b' := NewBuf(b, j, op);
    StepRing(b, j, killed, op);
    CountersTell(b);
    CountersTell(b');
  }

  predicate IsEffect(op: Op) {
    op.WriteByte? || op.ReadByte? || op.CloseSet?
  }

  lemma StepEffect(s: Sys, step: Step)
    requires Inv(s) && Enabled(s, step) && IsEffect(step.op)
    ensures |Do(s, step).job| == |Do(s, step).sys.procs| && JobOk(Do(s, step), step.p)
  {
    hide SW.Inv, SW.Do, Ready, RingOk;
    assert JobOk(s, step.p);
    LkHolder(s.sys, step.p);
    LowSelf(s.sys, Low(s, step));
    EffectReady(s.b, s.job[step.p], step.p in s.killed, step.op);
  }

  lemma StepSelf(s: Sys, step: Step)
    requires Inv(s) && Enabled(s, step) && Clean(s, step) && !step.op.Inner? && !step.op.KillIt? && !IsEffect(step.op)
    ensures |Do(s, step).job| == |Do(s, step).sys.procs| && JobOk(Do(s, step), step.p)
  {
    hide SW.Inv, SW.Do, Ready, RingOk;
    assert JobOk(s, step.p);
    LkHolder(s.sys, step.p);
    LowSelf(s.sys, Low(s, step));
    BufKept(s.b, s.job[step.p], step.op);
  }

  lemma StepInner(s: Sys, step: Step)
    requires Inv(s) && Enabled(s, step) && (step.op.Inner? || step.op.KillIt?)
    ensures |Do(s, step).job| == |Do(s, step).sys.procs| && JobOk(Do(s, step), step.p)
  {
    hide SW.Inv, SW.Do, PcFits;
    assert JobOk(s, step.p);
    LkHolder(s.sys, step.p);
    LowInner(s.sys, Low(s, step), s.job[step.p]);
  }

  lemma BufKept(b: Buf, j: Job, op: Op)
    requires !IsEffect(op)
    ensures NewBuf(b, j, op) == b
  {
  }

  lemma StepOther(s: Sys, step: Step, p: Proc)
    requires Inv(s) && Enabled(s, step) && p < |s.job| && p != step.p
    ensures |Do(s, step).job| == |Do(s, step).sys.procs| && JobOk(Do(s, step), p)
  {
    hide SW.Inv, SW.Do, OwesOk, NewBuf, NewJob;
    assert JobOk(s, p) && JobOk(s, step.p);
    LkHolder(s.sys, p);
    LkHolder(s.sys, step.p);
    LowOther(s.sys, Low(s, step), p);
    if !IsEffect(step.op) {
      BufKept(s.b, s.job[step.p], step.op);
    }
  }

  lemma StepJob(s: Sys, step: Step, p: Proc)
    requires Inv(s) && Enabled(s, step) && Clean(s, step) && p < |s.job|
    ensures |Do(s, step).job| == |Do(s, step).sys.procs| && JobOk(Do(s, step), p)
  {
    hide Inv, JobOk, Do, Enabled;
    if p != step.p {
      StepOther(s, step, p);
    } else if step.op.Inner? || step.op.KillIt? {
      StepInner(s, step);
    } else if IsEffect(step.op) {
      StepEffect(s, step);
    } else {
      StepSelf(s, step);
    }
  }

  lemma StepInv(s: Sys, step: Step)
    requires Inv(s) && Enabled(s, step) && Clean(s, step)
    ensures Inv(Do(s, step))
  {
    hide SW.Inv, JobOk, SW.Do, NewBuf, NewJob, SW.Disciplined, SW.Enabled;
    StepDisciplined(s, step);
    SW.StepInv(s.sys, Low(s, step));
    StepReady(s, step);
    var s' := Do(s, step);
    StepRing(s.b, s.job[step.p], step.p in s.killed, step.op);
    LowSelf(s.sys, Low(s, step));
    forall p | 0 <= p < |s'.job|
      ensures JobOk(s', p)
    {
      StepJob(s, step, p);
    }
  }

  // Runs.

  ghost predicate Init(s: Sys) {
    && SW.Init(s.sys)
    && |s.job| == |s.sys.procs|
    && (forall p :: 0 <= p < |s.job| ==> s.job[p] == IDLE)
    && s.killed == {}
    && |s.b.data| == PIPESIZE
    && s.b == Buf(s.b.data, 0, 0, true, true, [], [])
    && s.sys.ready == Ready(s.b)
  }

  ghost predicate Goes(s: Sys, step: Step, s': Sys) {
    Enabled(s, step) && s' == Do(s, step)
  }

  ghost predicate Run(run: seq<Sys>, steps: seq<Step>) {
    && |run| == |steps| + 1
    && Init(run[0])
    && forall i :: 0 <= i < |steps| ==> Goes(run[i], steps[i], run[i + 1])
  }

  ghost predicate Reachable(s: Sys) {
    exists run: seq<Sys>, steps :: Run(run, steps) && run[|steps|] == s
  }

  lemma InitInv(s: Sys)
    requires Init(s)
    ensures Inv(s)
  {
    SW.RunInv([s.sys], 0);
    forall p | 0 <= p < |s.job|
      ensures JobOk(s, p)
    {
    }
  }

  /** In every run, killed processes or not, what has been read is a prefix of what has been written. */
  lemma {:induction false} Fifo(run: seq<Sys>, steps: seq<Step>, i: nat)
    requires Run(run, steps) && i < |run|
    ensures RingOk(run[i].b)
    ensures run[i].b.taken == run[i].b.written[..|run[i].b.taken|] && |run[i].b.written| <= |run[i].b.taken| + PIPESIZE
  {
    hide SW.Do, SW.Enabled, Ready;
    if i > 0 {
      Fifo(run, steps, i - 1);
      var s, step := run[i - 1], steps[i - 1];
      assert Goes(s, step, run[i - 1 + 1]);
      StepRing(s.b, s.job[step.p], step.p in s.killed, step.op);
    }
  }

  ghost predicate AllClean(run: seq<Sys>, steps: seq<Step>, n: nat) {
    n <= |steps| < |run| && forall i {:trigger run[i]} {:trigger steps[i]} :: 0 <= i < n ==> Clean(run[i], steps[i])
  }

  lemma {:induction false} RunInv(run: seq<Sys>, steps: seq<Step>, i: nat)
    requires Run(run, steps) && i < |run| && AllClean(run, steps, i)
    ensures Inv(run[i])
  {
    hide Inv, Do, Enabled, Clean;
    if i == 0 {
      InitInv(run[0]);
    } else {
      RunInv(run, steps, i - 1);
      assert Goes(run[i - 1], steps[i - 1], run[i - 1 + 1]);
      StepInv(run[i - 1], steps[i - 1]);
    }
  }

  /** p sleeps, or has given up the pipe's lock to sleep, on a channel although it could proceed. */
  ghost predicate Stuck(s: Sys, p: Proc) {
    exists ch :: SW.Waits(s.sys, p, ch) && ch in Ready(s.b)
  }

  /**
   Whenever the pipe's lock is free: a sleeping reader implies an empty pipe whose write end is open, a sleeping writer
   a full pipe whose read end is open.
   */
  lemma SleepersMustWait(run: seq<Sys>, steps: seq<Step>, p: Proc)
    requires Run(run, steps) && AllClean(run, steps, |steps|) && run[|steps|].sys.lk == None
    ensures var s := run[|steps|];
            && (SW.SleepsOn(s.sys, p, NREAD) ==> s.b.written == s.b.taken && s.b.writeopen)
            && (SW.SleepsOn(s.sys, p, NWRITE) ==> |s.b.written| == |s.b.taken| + PIPESIZE && s.b.readopen)
            && !Stuck(s, p)
  {
    RunInv(run, steps, |steps|);
    var s := run[|steps|];
    CountersTell(s.b);
    forall ch | SW.SleepsOn(s.sys, p, ch) || SW.Waits(s.sys, p, ch)
      ensures ch !in Ready(s.b)
    {
      SW.SleepersWait(s.sys, p, ch);
    }
  }

  ghost predicate NoKills(steps: seq<Step>) {
    forall i :: 0 <= i < |steps| ==> !steps[i].op.KillIt?
  }

  lemma {:induction false} NobodyKilled(run: seq<Sys>, steps: seq<Step>, i: nat)
    requires Run(run, steps) && NoKills(steps) && i < |run|
    ensures run[i].killed == {}
  {
    hide SW.Do, SW.Enabled, Ready, NewBuf, NewJob, Low;
    if i > 0 {
      NobodyKilled(run, steps, i - 1);
      assert Goes(run[i - 1], steps[i - 1], run[i - 1 + 1]) && !steps[i - 1].op.KillIt?;
    }
  }

  /** A writer that nobody killed gives up only when the read end is closed, and then it owes nothing. */
  lemma GivesUpClean(s: Sys, step: Step)
    requires Inv(s) && Enabled(s, step) && step.p !in s.killed
    ensures Clean(s, step)
  {
    hide SW.Inv, SW.Do;
    assert JobOk(s, step.p);
    LkHolder(s.sys, step.p);
  }

  /** Runs without kill are clean. */
  lemma {:induction false} KillFreeIsClean(run: seq<Sys>, steps: seq<Step>, n: nat)
    requires Run(run, steps) && NoKills(steps) && n <= |steps|
    ensures AllClean(run, steps, n)
  {
    hide Inv, Do, Enabled, Clean;
    if n > 0 {
      KillFreeIsClean(run, steps, n - 1);
      RunInv(run, steps, n - 1);
      NobodyKilled(run, steps, n - 1);
      assert Goes(run[n - 1], steps[n - 1], run[n - 1 + 1]);
      GivesUpClean(run[n - 1], steps[n - 1]);
    }
  }

  /**
   Exactly when giving up strands a reader: the writer has put bytes in since it last called wakeup, which only a kill
   can make happen, and some reader is waiting.
   */
  lemma GivingUpStrands(s: Sys, p: Proc)
    requires Inv(s) && Enabled(s, Step(p, WriteFail))
    ensures var s' := Do(s, Step(p, WriteFail));
            (exists q :: Stuck(s', q)) <==> s.sys.owed != {} && exists q :: SW.Waits(s.sys, q, NREAD)
    ensures s.sys.owed != {} ==> p in s.killed
  {
    var s' := Do(s, Step(p, WriteFail));
    assert JobOk(s, p);
    LkHolder(s.sys, p);
    assert forall q, ch :: SW.Waits(s'.sys, q, ch) <==> SW.Waits(s.sys, q, ch);
    if s.sys.owed != {} {
      assert NREAD in Ready(s.b);
      if q :| SW.Waits(s.sys, q, NREAD) {
        assert Stuck(s', q);
      }
    }
    forall q | Stuck(s', q)
      ensures s.sys.owed != {} && SW.Waits(s.sys, q, NREAD)
    {
      var ch :| SW.Waits(s.sys, q, ch) && ch in Ready(s.b);
      assert SW.ProcOk(s.sys, q);
    }
  }

  /** In the first n steps nobody is left stuck with the pipe's lock free. */
  ghost predicate NeverStuck(run: seq<Sys>, n: nat) {
    n < |run| && forall i, p :: 0 <= i <= n && Stuck(run[i], p) ==> run[i].sys.lk != None
  }

  lemma UncleanStrands(s: Sys, step: Step)
    requires Inv(s) && Enabled(s, step) && !Clean(s, step)
    ensures Do(s, step).sys.lk == None && exists q :: Stuck(Do(s, step), q)
  {
    hide SW.Inv, Stuck, Ready;
    GivingUpStrands(s, step.p);
    var q :| 0 <= q < |s.sys.procs| && SW.Waits(s.sys, q, NREAD);
    assert step == Step(step.p, WriteFail);
  }

  /** Of whole runs: the ones in which nobody is left stuck are exactly those without an unclean step. */
  lemma {:induction false} CleanIsExact(run: seq<Sys>, steps: seq<Step>, n: nat)
    requires Run(run, steps) && n <= |steps|
    ensures NeverStuck(run, n) <==> AllClean(run, steps, n)
  {
    hide Inv, Do, Enabled, Clean, Stuck;
    if AllClean(run, steps, n) {
      forall i, p | 0 <= i <= n && Stuck(run[i], p)
        ensures run[i].sys.lk != None
      {
        if run[i].sys.lk == None {
          RunPrefix(run, steps, i);
          SleepersMustWait(run[..i + 1], steps[..i], p);
        }
      }
    }
    if NeverStuck(run, n) && n > 0 {
      CleanIsExact(run, steps, n - 1);
      RunInv(run, steps, n - 1);
      assert Goes(run[n - 1], steps[n - 1], run[n - 1 + 1]);
      if !Clean(run[n - 1], steps[n - 1]) {
        UncleanStrands(run[n - 1], steps[n - 1]);
      }
    }
  }

  lemma RunPrefix(run: seq<Sys>, steps: seq<Step>, i: nat)
    requires Run(run, steps) && i <= |steps|
    ensures Run(run[..i + 1], steps[..i])
    ensures AllClean(run, steps, i) ==> AllClean(run[..i + 1], steps[..i], i)
  {
    hide Clean, Init;
    forall j | 0 <= j < i
      ensures Goes(run[..i + 1][j], steps[..i][j], run[..i + 1][j + 1])
    {
      assert Goes(run[j], steps[j], run[j + 1]);
    }
  }

  lemma Extend(run: seq<Sys>, steps: seq<Step>, step: Step) returns (run': seq<Sys>, steps': seq<Step>)
    requires Run(run, steps) && Enabled(run[|steps|], step)
    ensures Run(run', steps') && |steps'| == |steps| + 1 && run'[|steps'|] == Do(run[|steps|], step)
  {
    hide Do, Enabled;
    run', steps' := run + [Do(run[|steps|], step)], steps + [step];
    forall i | 0 <= i < |steps'|
      ensures Goes(run'[i], steps'[i], run'[i + 1])
    {
      if i < |steps| {
        assert Goes(run[i], steps[i], run[i + 1]);
      }
    }
  }

  const OUT := SW.P(SW.Running, None, false, SW.Out)

  function Fresh(): Buf {
    Buf(seq(PIPESIZE, _ => 0), 0, 0, true, true, [], [])
  }

  /** Process 0 idle, process 1 reading one byte from the empty pipe. */
  function Reader(q: SW.P, lk: Option<Proc>): Sys {
    Sys(SW.Sys([OUT, q], lk, {NWRITE}, {}), Fresh(), [IDLE, Job(Reading, Top, 1, 0)], {})
  }

  /** Reader 1 of an empty pipe calls sleep. */
  lemma ReaderCalls() returns (run: seq<Sys>, steps: seq<Step>)
    ensures Run(run, steps) && run[|steps|] == Reader(SW.P(SW.Running, None, false, SW.Called(NREAD)), Some(1))
  {
    run, steps := [Sys(SW.Sys([OUT, OUT], None, {NWRITE}, {}), Fresh(), [IDLE, IDLE], {})], [];
    run, steps := Extend(run, steps, Step(1, StartRead(1)));
    assert run[|steps|] == Reader(SW.P(SW.Running, None, false, SW.In), Some(1));
    run, steps := Extend(run, steps, Step(1, ReadSleep));
  }

  /** Within sleep it locks itself and lets go of the pipe. */
  lemma ReaderArms() returns (run: seq<Sys>, steps: seq<Step>)
    ensures Run(run, steps) && run[|steps|] == Reader(SW.P(SW.Running, None, true, SW.Released(NREAD)), None)
  {
    hide Ready, Init;
    run, steps := ReaderCalls();
    run, steps := Extend(run, steps, Step(1, Inner(SW.LockSelf(1))));
    assert run[|steps|] == Reader(SW.P(SW.Running, None, true, SW.Armed(NREAD)), Some(1));
    run, steps := Extend(run, steps, Step(1, Inner(SW.DropLk(1))));
  }

  /** It marks itself SLEEPING and the scheduler frees its lock. */
  lemma ReaderSleeps() returns (run: seq<Sys>, steps: seq<Step>)
    ensures Run(run, steps)
    ensures run[|steps|] == Reader(SW.P(SW.Sleeping, Some(NREAD), false, SW.Asleep(NREAD)), None)
  {
    hide Ready, Init;
    run, steps := ReaderArms();
    run, steps := Extend(run, steps, Step(1, Inner(SW.MarkSleeping(1))));
    assert run[|steps|] == Reader(SW.P(SW.Sleeping, Some(NREAD), true, SW.Switching(NREAD)), None);
    run, steps := Extend(run, steps, Step(1, Inner(SW.SwitchOff(1))));
  }

  /**
   The wakeup that is lost: writer 0 puts one byte of two in, is killed, and returns -1 without waking reader 1, which
   sleeps on with a byte in the pipe and nobody holding the lock.
   */
  lemma KillStrandsReader()
    ensures exists s :: Reachable(s) && s.sys.lk == None && SW.SleepsOn(s.sys, 1, NREAD) && s.b.taken == [] && s.b.written == [65]
  {
    var run, steps := ReaderSleeps();
    run, steps := Extend(run, steps, Step(0, StartWrite(2)));
    run, steps := Extend(run, steps, Step(0, WriteByte(65)));
    run, steps := Extend(run, steps, Step(0, KillIt));
    run, steps := Extend(run, steps, Step(0, WriteFail));
    var s := run[|steps|];
    assert Reachable(s) && SW.SleepsOn(s.sys, 1, NREAD) && s.b.written == [65];
  }
}
