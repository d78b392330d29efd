/**
 Sleeping locks of kernel/sleeplock.c: acquiresleep and releasesleep, as clients of sleep and wakeup. Their code keeps
 the rules of SleepWakeup, so that no process sleeps on a free lock; and the lock excludes.
 */
module SleepLock {
  import opened Collections
  import SW = SleepWakeup

  type Proc = SW.Proc

  /** The channel: the address of the lock. */
  const LK: SW.Chan := 0

  /**
   Idle: the process neither has nor wants the lock. Acquiring: in acquiresleep, up to the end of its loop. Got: it has
   set locked and pid, and holds lk->lk. Holding: acquiresleep has returned. Freeing: in releasesleep with lk->lk.
   Cleared: it has reset locked and pid. Woke: it has called wakeup.
   */
  datatype Local = Idle | Acquiring | Got | Holding | Freeing | Cleared | Woke

  /** struct sleeplock with the processes that use it; sys.lk is the spinlock lk->lk, pid is 0 when None. */
  datatype Sys = Sys(sys: SW.Sys, locked: bool, pid: Option<Proc>, local: seq<Local>)

  datatype Step =
    | StartAcquire(p: Proc)
    | Block(p: Proc)
    | Take(p: Proc)
    | FinishAcquire(p: Proc)
    | StartRelease(p: Proc)
    | Clear(p: Proc)
    | CallWakeup(p: Proc)
    | FinishRelease(p: Proc)
    | Inner(inner: SW.Step)

  /** The steps inside sleep, wakeup, kill and the scheduler. */
  predicate IsInner(s: SW.Sys, step: SW.Step) {
    || step.LockSelf? || step.DropLk? || step.MarkSleeping? || step.SwitchOff? || step.Visit? || step.Return?
    || step.Kill? || step.Dispatch? || step.Tidy?
    || (step.Acquire? && SW.At(s, step.p, SW.Wanting))
  }

  /** What the step does to the processes and the spinlock. */
  function Low(s: Sys, step: Step): SW.Step {
    match step
    case StartAcquire(p) => SW.Acquire(p)
    case Block(p) => SW.Sleep(p, LK)
    case Take(p) => SW.Change(p, {}, s.sys.owed)
    case FinishAcquire(p) => SW.Release(p)
    case StartRelease(p) => SW.Acquire(p)
    case Clear(p) => SW.Change(p, {LK}, s.sys.owed + {LK})
    case CallWakeup(p) => SW.Wakeup(p, LK)
    case FinishRelease(p) => SW.Release(p)
    case Inner(inner) => inner
  }

  /** The branch that the code takes: the loop of acquiresleep tests locked and nothing else. */
  predicate Branch(s: Sys, step: Step) {
    match step
    case Inner(inner) => IsInner(s.sys, inner)
    case StartAcquire(p) => Is(s, p, Idle) && SW.At(s.sys, p, SW.Out)
    case Block(p) => Is(s, p, Acquiring) && s.locked
    case Take(p) => Is(s, p, Acquiring) && !s.locked
    case FinishAcquire(p) => Is(s, p, Got)
    case StartRelease(p) => Is(s, p, Holding) && SW.At(s.sys, p, SW.Out)
    case Clear(p) => Is(s, p, Freeing)
    case CallWakeup(p) => Is(s, p, Cleared)
    case FinishRelease(p) => Is(s, p, Woke)
  }

  predicate Is(s: Sys, p: Proc, l: Local) {
    p < |s.local| && s.local[p] == l
  }

  predicate Enabled(s: Sys, step: Step) {
    Branch(s, step) && SW.Enabled(s.sys, Low(s, step))
  }

  function Do(s: Sys, step: Step): Sys
    requires Enabled(s, step)
  {
    var s1 := s.(sys := SW.Do(s.sys, Low(s, step)));
    match step
    case StartAcquire(p) => s1.(local := s.local[p := Acquiring])
    case Block(_) => s1
    case Take(p) => s1.(locked := true, pid := Some(p), local := s.local[p := Got])
    case FinishAcquire(p) => s1.(local := s.local[p := Holding])
    case StartRelease(p) => s1.(local := s.local[p := Freeing])
    case Clear(p) => s1.(locked := false, pid := None, local := s.local[p := Cleared])
    case CallWakeup(p) => s1.(local := s.local[p := Woke])
    case FinishRelease(p) => s1.(local := s.local[p := Idle])
    case Inner(_) => s1
  }

  ghost predicate Next(s: Sys, s': Sys) {
    exists step :: Enabled(s, step) && s' == Do(s, step)
  }

  // The invariant.

  /** The process owns the sleeping lock. */
  predicate Owns(l: Local) {
    l == Got || l == Holding || l == Freeing
  }

  predicate PcFits(l: Local, pc: SW.Pc) {
    match l
    case Idle => pc == SW.Out
    case Acquiring => !pc.Out? && !pc.Waking? && (pc.Called? || pc.Armed? || pc.Released? || pc.Switching? || pc.Asleep? ==> pc.ch == LK)
    case Holding => pc == SW.Out
    case Woke => pc == SW.In || pc.Waking?
    case _ => pc == SW.In
  }

  predicate LocalOk(s: Sys, p: Proc)
    requires |s.local| == |s.sys.procs| && p < |s.local|
  {
    && PcFits(s.local[p], s.sys.procs[p].pc)
    && (Owns(s.local[p]) <==> s.pid == Some(p))
    && (s.local[p] == Cleared <==> s.sys.lk == Some(p) && s.sys.owed == {LK})
    && (s.sys.lk == Some(p) && s.sys.owed != {} ==> s.sys.owed == {LK})
  }

  ghost predicate Inv(s: Sys) {
    && SW.Inv(s.sys)
    && |s.local| == |s.sys.procs|
    && s.sys.ready == (if s.locked then {} else {LK})
    && (s.locked <==> s.pid.Some?)
    && (s.pid.Some? ==> s.pid.value < |s.local|)
    && (forall p {:trigger s.local[p]} :: 0 <= p < |s.local| ==> LocalOk(s, p))
  }

  /** The code keeps the rules of sleep and wakeup. */
  lemma StepDisciplined(s: Sys, step: Step)
    requires Inv(s) && Enabled(s, step)
    ensures SW.Disciplined(s.sys, Low(s, step))
  {
    hide SW.ProcOk;
    var low := Low(s, step);
    assert LocalOk(s, low.p);
    assert SW.ProcOk(s.sys, low.p);
    LkHolder(s, low.p);
  }

  /** A process whose position says that it holds the spinlock does hold it. */
  lemma LkHolder(s: Sys, p: Proc)
    requires Inv(s) && p < |s.local|
    ensures SW.HoldsLk(s.sys.procs[p].pc) <==> s.sys.lk == Some(p)
  {
    assert SW.ProcOk(s.sys, p);
  }

  lemma StepOwn(s: Sys, step: Step)
    requires Inv(s) && Enabled(s, step) && !step.Inner?
    ensures |Do(s, step).local| == |Do(s, step).sys.procs| && LocalOk(Do(s, step), Low(s, step).p)
  {
    hide SW.ProcOk;
    var p := Low(s, step).p;
    assert LocalOk(s, p);
    LkHolder(s, p);
  }

  lemma StepInner(s: Sys, step: Step)
    requires Inv(s) && Enabled(s, step) && step.Inner?
    ensures |Do(s, step).local| == |Do(s, step).sys.procs| && LocalOk(Do(s, step), Low(s, step).p)
  {
    hide SW.ProcOk;
    var p := Low(s, step).p;
    assert LocalOk(s, p);
    LkHolder(s, p);
    if s.sys.procs[p].state == SW.Sleeping {
      KillFits(s, p);
    }
  }

  lemma KillFits(s: Sys, p: Proc)
    requires Inv(s) && p < |s.local| && s.sys.procs[p].state == SW.Sleeping
    ensures s.local[p] == Acquiring && s.sys.procs[p].pc != SW.In
  {
    assert SW.ProcOk(s.sys, p) && LocalOk(s, p);
  }

  lemma StepOther(s: Sys, step: Step, p: Proc)
    requires Inv(s) && Enabled(s, step) && p < |s.local| && p != Low(s, step).p
    ensures |Do(s, step).local| == |Do(s, step).sys.procs| && LocalOk(Do(s, step), p)
  {
    hide SW.ProcOk;
    var me := Low(s, step).p;
    assert LocalOk(s, p) && LocalOk(s, me);
    LkHolder(s, p);
    LkHolder(s, me);
    if s.sys.procs[p].state == SW.Sleeping {
      KillFits(s, p);
    }
  }

  lemma StepInv(s: Sys, step: Step)
    requires Inv(s) && Enabled(s, step)
    ensures Inv(Do(s, step))
  {
    hide SW.Inv, SW.Disciplined, LocalOk;
    StepDisciplined(s, step);
    SW.StepInv(s.sys, Low(s, step));
    var s' := Do(s, step);
    if step.Inner? {
      StepInner(s, step);
    } else {
      StepOwn(s, step);
    }
    forall p | 0 <= p < |s'.local|
      ensures LocalOk(s', p)
    {
      if p != Low(s, step).p {
        StepOther(s, step, p);
      }
    }
  }

  // Runs.

  ghost predicate Init(s: Sys) {
    && SW.Init(s.sys) && s.sys.ready == {LK} && !s.locked && s.pid == None
    && |s.local| == |s.sys.procs| && (forall p :: 0 <= p < |s.local| ==> s.local[p] == Idle)
  }

  ghost predicate Run(run: seq<Sys>) {
    && run != []
    && Init(run[0])
    && forall i :: 0 <= i < |run| - 1 ==> Next(run[i], run[i + 1])
  }

  lemma {:induction false} RunInv(run: seq<Sys>, i: nat)
    requires Run(run) && i < |run|
    ensures Inv(run[i])
  {
    if i == 0 {
      SW.RunInv([run[0].sys], 0);
      forall p | 0 <= p < |run[0].local|
        ensures LocalOk(run[0], p)
      {
      }
    } else {
      RunInv(run, i - 1);
      assert Next(run[i - 1], run[i - 1 + 1]);
      var step :| Enabled(run[i - 1], step) && run[i] == Do(run[i - 1], step);
      StepInv(run[i - 1], step);
    }
  }

  /** Whenever the spinlock is free, a process that sleeps on the lock sleeps on a lock that is held. */
  lemma SleeperMeansHeld(run: seq<Sys>, p: Proc)
    requires Run(run) && run[|run| - 1].sys.lk == None && SW.SleepsOn(run[|run| - 1].sys, p, LK)
    ensures var s := run[|run| - 1];
            s.locked && s.pid.Some? && s.pid.value < |s.local| && s.local[s.pid.value] == Holding
  {
    var s := run[|run| - 1];
    RunInv(run, |run| - 1);
    SW.SleepersWait(s.sys, p, LK);
    assert SW.ProcOk(s.sys, p);
    assert LocalOk(s, s.pid.value);
    LkHolder(s, s.pid.value);
  }

  /** Between acquiresleep and releasesleep a process has the lock to itself. */
  lemma MutualExclusion(run: seq<Sys>, p: Proc, q: Proc)
    requires Run(run) && p < |run[|run| - 1].local| && q < |run[|run| - 1].local|
    requires run[|run| - 1].local[p] == Holding && Owns(run[|run| - 1].local[q])
    ensures p == q && run[|run| - 1].locked
  {
    RunInv(run, |run| - 1);
    assert LocalOk(run[|run| - 1], p) && LocalOk(run[|run| - 1], q);
  }

  /** holdingsleep. */
  predicate HoldingSleep(s: Sys, p: Proc) {
    s.locked && s.pid == Some(p)
  }

  /** holdingsleep answers whether the caller has returned from acquiresleep and not yet released. */
  lemma HoldingSleepExact(run: seq<Sys>, p: Proc)
    requires Run(run) && p < |run[|run| - 1].local|
    ensures HoldingSleep(run[|run| - 1], p) <==> Owns(run[|run| - 1].local[p])
  {
    RunInv(run, |run| - 1);
    assert LocalOk(run[|run| - 1], p);
  }
}
