/**
 Process switching on several CPUs: the scheduler loop, scheduleProcess, sched, yield, sleep, exit, fork, wait and wakeup
 of kernel/proc.c. p->lock is taken on one side of a context switch and released on the other. In every interleaving
 a process runs on at most one CPU, a process is RUNNING exactly when one CPU runs it, and wait frees a zombie only
 after its last CPU has left its kernel stack.
 */
module Scheduler {
  import opened Collections

  type Pid = nat
  type Cpu = nat

  datatype State = Unused | Used | Sleeping | Runnable | Running | Zombie

  /** lock is p->lock, with the CPU that holds it, as lk->cpu records it. */
  datatype Proc = Proc(state: State, lock: Option<Cpu>)

  /** A process's thread: just switched to, with its lock held for it; going about its business; about to give up its CPU. */
  datatype Stage = Resuming | Going | Leaving

  /**
   What a CPU executes. Scanning: the scheduler loop. Picked: the scan has selected a process and released all locks.
   On: the process's kernel stack or its user code. Back: the scheduler again, just switched to from p.
   */
  datatype Ctl = Scanning | Picked(p: Pid) | On(p: Pid, stage: Stage) | Back(p: Pid)

  /** proc is c->proc. */
  datatype CpuState = CpuState(proc: Option<Pid>, ctl: Ctl)

  datatype Sys = Sys(procs: seq<Proc>, cpus: seq<CpuState>)

  /**
   Pick: the loop over the table ends with p selected. Dispatch: scheduleProcess up to swtch, or to its end if p is no
   longer RUNNABLE. Resume: the process, switched to, releases its lock, in yield, sleep or forkret. Lock: it acquires
   its lock in yield, sleep or exit. Leave: it sets its state and switches to the scheduler. Settle: scheduleProcess
   after swtch. Wake: wakeup or kill finds p asleep. Alloc: allocproc takes an unused slot; Start: fork makes it
   RUNNABLE; Abort: allocproc fails. Reap: wait frees a zombie.
   */
  datatype Step =
    | Pick(c: Cpu, p: Pid)
    | Dispatch(c: Cpu)
    | Resume(c: Cpu)
    | Lock(c: Cpu)
    | Leave(c: Cpu, state: State)
    | Settle(c: Cpu)
    | Wake(c: Cpu, p: Pid)
    | Alloc(c: Cpu, p: Pid)
    | Start(c: Cpu, p: Pid)
    | Abort(c: Cpu, p: Pid)
    | Reap(c: Cpu, p: Pid)

  /** The other process's lock can be acquired, and its state is st. */
  predicate Sees(s: Sys, p: Pid, st: State) {
    p < |s.procs| && s.procs[p].lock == None && s.procs[p].state == st
  }

  predicate InCall(s: Sys, c: Cpu)
    requires c < |s.cpus|
  {
    s.cpus[c].ctl.On? && s.cpus[c].ctl.stage == Going
  }

  predicate Enabled(s: Sys, step: Step) {
    && step.c < |s.cpus|
    && var ctl := s.cpus[step.c].ctl;
    match step
    case Pick(c, p) => ctl == Scanning && p < |s.procs|
    case Dispatch(c) => ctl.Picked? && ctl.p < |s.procs| && s.procs[ctl.p].lock == None
    case Resume(c) => ctl.On? && ctl.stage == Resuming && ctl.p < |s.procs|
    case Lock(c) => InCall(s, c) && ctl.p < |s.procs| && s.procs[ctl.p].lock == None
    case Leave(c, st) => ctl.On? && ctl.stage == Leaving && ctl.p < |s.procs| && (st == Runnable || st == Sleeping || st == Zombie)
    case Settle(c) => ctl.Back? && ctl.p < |s.procs|
    case Wake(c, p) => Sees(s, p, Sleeping)
    case Alloc(c, p) => InCall(s, c) && Sees(s, p, Unused)
    case Start(c, p) => InCall(s, c) && Sees(s, p, Used)
    case Abort(c, p) => InCall(s, c) && Sees(s, p, Used)
    case Reap(c, p) => InCall(s, c) && Sees(s, p, Zombie)
  }

  function SetProc(s: Sys, p: Pid, q: Proc): Sys
    requires p < |s.procs|
  {
    s.(procs := s.procs[p := q])
  }

  function SetCpu(s: Sys, c: Cpu, k: CpuState): Sys
    requires c < |s.cpus|
  {
    s.(cpus := s.cpus[c := k])
  }

  function Do(s: Sys, step: Step): Sys
    requires Enabled(s, step)
  {
    var c, k := step.c, s.cpus[step.c];
    match step
    case Pick(_, p) => SetCpu(s, c, k.(ctl := Picked(p)))
    case Dispatch(_) =>
      var p := k.ctl.p;
      if s.procs[p].state == Runnable
      then SetCpu(SetProc(s, p, Proc(Running, Some(c))), c, CpuState(Some(p), On(p, Resuming)))
      else SetCpu(s, c, k.(ctl := Scanning))
    case Resume(_) => SetCpu(SetProc(s, k.ctl.p, s.procs[k.ctl.p].(lock := None)), c, k.(ctl := On(k.ctl.p, Going)))
    case Lock(_) => SetCpu(SetProc(s, k.ctl.p, s.procs[k.ctl.p].(lock := Some(c))), c, k.(ctl := On(k.ctl.p, Leaving)))
    case Leave(_, st) => SetCpu(SetProc(s, k.ctl.p, s.procs[k.ctl.p].(state := st)), c, k.(ctl := Back(k.ctl.p)))
    case Settle(_) => SetCpu(SetProc(s, k.ctl.p, s.procs[k.ctl.p].(lock := None)), c, CpuState(None, Scanning))
    case Wake(_, p) => SetProc(s, p, s.procs[p].(state := Runnable))
    case Alloc(_, p) => SetProc(s, p, s.procs[p].(state := Used))
    case Start(_, p) => SetProc(s, p, s.procs[p].(state := Runnable))
    case Abort(_, p) => SetProc(s, p, s.procs[p].(state := Unused))
    case Reap(_, p) => SetProc(s, p, s.procs[p].(state := Unused))
  }

  ghost predicate Next(s: Sys, s': Sys) {
    exists step :: Enabled(s, step) && s' == Do(s, step)
  }

  // The invariant.

  /** The process that the CPU is bound to. */
  function Bound(ctl: Ctl): Option<Pid> {
    match ctl
    case On(p, _) => Some(p)
    case Back(p) => Some(p)
    case _ => None
  }

  /** The CPU's code holds the lock of the process it is bound to. */
  predicate Holding(ctl: Ctl) {
    ctl.Back? || (ctl.On? && ctl.stage != Going)
  }

  predicate CpuOk(s: Sys, c: Cpu)
    requires c < |s.cpus|
  {
    var k := s.cpus[c];
    && k.proc == Bound(k.ctl)
    && (k.proc.Some? ==>
          && k.proc.value < |s.procs|
          && var q := s.procs[k.proc.value];
          && (Holding(k.ctl) <==> q.lock == Some(c))
          && (k.ctl.On? ==> q.state == Running)
          && (k.ctl.Back? ==> q.state == Runnable || q.state == Sleeping || q.state == Zombie))
  }

  /** CPU c is bound to p. */
  predicate Has(s: Sys, c: Cpu, p: Pid) {
    c < |s.cpus| && s.cpus[c].proc == Some(p)
  }

  ghost predicate ProcOk(s: Sys, p: Pid)
    requires p < |s.procs|
  {
    && (s.procs[p].state == Running ==> exists c :: Has(s, c, p))
    && (s.procs[p].lock.Some? ==> Has(s, s.procs[p].lock.value, p))
    && (forall c, d :: Has(s, c, p) && Has(s, d, p) ==> c == d)
  }

  ghost predicate Inv(s: Sys) {
    && (forall c {:trigger s.cpus[c]} :: 0 <= c < |s.cpus| ==> CpuOk(s, c))
    && (forall p {:trigger s.procs[p]} :: 0 <= p < |s.procs| ==> ProcOk(s, p))
  }

  /** A process whose lock is free and that is not RUNNING has no CPU. */
  lemma Unbound(s: Sys, p: Pid, c: Cpu)
    requires Inv(s) && p < |s.procs| && s.procs[p].lock == None && s.procs[p].state != Running
    ensures !Has(s, c, p)
  {
  }

  /** The process that a step is about. */
  function About(s: Sys, step: Step): Pid
    requires Enabled(s, step)
  {
    match step
    case Pick(_, p) => p
    case Wake(_, p) => p
    case Alloc(_, p) => p
    case Start(_, p) => p
    case Abort(_, p) => p
    case Reap(_, p) => p
    case _ => s.cpus[step.c].ctl.p
  }

  lemma AboutInRange(s: Sys, step: Step)
    requires Enabled(s, step)
    ensures About(s, step) < |s.procs|
  {
  }

  lemma StepCpuSelf(s: Sys, step: Step)
    requires Inv(s) && Enabled(s, step)
    ensures |Do(s, step).cpus| == |s.cpus| && |Do(s, step).procs| == |s.procs| && CpuOk(Do(s, step), step.c)
  {
    hide ProcOk;
    assert CpuOk(s, step.c);
    AboutInRange(s, step);
    var p := About(s, step);
    if s.procs[p].lock == None && s.procs[p].state != Running {
      Unbound(s, p, step.c);
    }
  }

  lemma StepCpuOther(s: Sys, step: Step, c: Cpu)
    requires Inv(s) && Enabled(s, step) && c < |s.cpus| && c != step.c
    ensures |Do(s, step).cpus| == |s.cpus| && |Do(s, step).procs| == |s.procs| && CpuOk(Do(s, step), c)
  {
    assert CpuOk(s, c) && CpuOk(s, step.c);
    AboutInRange(s, step);
    var p := About(s, step);
    assert ProcOk(s, p);
    if s.procs[p].lock == None && s.procs[p].state != Running {
      Unbound(s, p, c);
    }
    if Has(s, step.c, p) {
      assert !Has(s, c, p);
    }
  }

  lemma StepProc(s: Sys, step: Step, p: Pid)
    requires Inv(s) && Enabled(s, step) && p < |s.procs|
    ensures p < |Do(s, step).procs| && ProcOk(Do(s, step), p)
  {
    assert ProcOk(s, p);
    assert CpuOk(s, step.c);
    AboutInRange(s, step);
    var s', q := Do(s, step), About(s, step);
    forall c
      ensures Has(s', c, p) <==>
              || (Has(s, c, p) && !(step.Settle? && c == step.c))
              || (step.Dispatch? && c == step.c && q == p && s.procs[p].state == Runnable)
    {
    }
    if step.Dispatch? && q == p && s.procs[p].state == Runnable {
      forall c
        ensures !Has(s, c, p)
      {
        Unbound(s, p, c);
      }
      assert Has(s', step.c, p);
    } else if s'.procs[p].state == Running {
      var c :| Has(s, c, p);
      assert Has(s', c, p);
    }
  }

  lemma StepInv(s: Sys, step: Step)
    requires Inv(s) && Enabled(s, step)
    ensures Inv(Do(s, step))
  {
    hide CpuOk, ProcOk, Do;
    var s' := Do(s, step);
    StepCpuSelf(s, step);
    forall c | 0 <= c < |s'.cpus|
      ensures CpuOk(s', c)
    {
      if c != step.c {
        StepCpuOther(s, step, c);
      }
    }
    forall p | 0 <= p < |s'.procs|
      ensures ProcOk(s', p)
    {
      StepProc(s, step, p);
    }
  }

  // Runs.

  /** After userinit: no CPU has a process, no lock is held, and nothing is running. */
  ghost predicate Init(s: Sys) {
    && (forall c :: 0 <= c < |s.cpus| ==> s.cpus[c] == CpuState(None, Scanning))
    && (forall p :: 0 <= p < |s.procs| ==> s.procs[p].lock == None && (s.procs[p].state == Unused || s.procs[p].state == Runnable))
  }

  ghost predicate Run(run: seq<Sys>) {
    && run != []
    && Init(run[0])
    && forall i :: 0 <= i < |run| - 1 ==> Next(run[i], run[i + 1])
  }

  lemma InitInv(s: Sys)
    requires Init(s)
    ensures Inv(s)
  {
    forall c | 0 <= c < |s.cpus|
      ensures CpuOk(s, c)
    {
    }
    forall p | 0 <= p < |s.procs|
      ensures ProcOk(s, p)
    {
    }
  }

  lemma {:induction false} RunInv(run: seq<Sys>, i: nat)
    requires Run(run) && i < |run|
    ensures Inv(run[i])
  {
    hide Inv, Init, Enabled, Do;
    if i == 0 {
      InitInv(run[0]);
    } else {
      RunInv(run, i - 1);
      assert Next(run[i - 1], run[i - 1 + 1]);
      var step :| Enabled(run[i - 1], step) && run[i] == Do(run[i - 1], step);
      StepInv(run[i - 1], step);
    }
  }

  /** Exactly one CPU is bound to p. */
  ghost predicate OneCpu(s: Sys, p: Pid) {
    exists c :: Has(s, c, p) && forall d :: Has(s, d, p) ==> d == c
  }

  ghost predicate NoCpu(s: Sys, p: Pid) {
    forall c :: !Has(s, c, p)
  }

  /** Whenever p->lock is free, p is RUNNING if and only if exactly one CPU has c->proc == p. */
  lemma RunningIffOneCpu(run: seq<Sys>, p: Pid)
    requires Run(run) && p < |run[|run| - 1].procs| && run[|run| - 1].procs[p].lock == None
    ensures run[|run| - 1].procs[p].state == Running <==> OneCpu(run[|run| - 1], p)
    ensures run[|run| - 1].procs[p].state != Running ==> NoCpu(run[|run| - 1], p)
  {
    RunInv(run, |run| - 1);
    var s := run[|run| - 1];
    assert ProcOk(s, p);
    if s.procs[p].state != Running {
      forall c
        ensures !Has(s, c, p)
      {
        Unbound(s, p, c);
      }
    } else {
      var c :| Has(s, c, p);
      assert forall d :: Has(s, d, p) ==> d == c;
    }
  }

  /** No two CPUs are ever on the kernel stack of the same process. */
  lemma OneStackOneCpu(run: seq<Sys>, c: Cpu, d: Cpu)
    requires Run(run) && c < |run[|run| - 1].cpus| && d < |run[|run| - 1].cpus|
    requires run[|run| - 1].cpus[c].ctl.On? && run[|run| - 1].cpus[d].ctl.On?
    requires run[|run| - 1].cpus[c].ctl.p == run[|run| - 1].cpus[d].ctl.p
    ensures c == d
  {
    RunInv(run, |run| - 1);
    var s := run[|run| - 1];
    assert CpuOk(s, c) && CpuOk(s, d);
    var p := s.cpus[c].ctl.p;
    assert ProcOk(s, p) && Has(s, c, p) && Has(s, d, p);
  }

  /** When two scans have picked the same process, the recheck in scheduleProcess lets only one of them run it. */
  lemma RecheckStopsSecond(run: seq<Sys>, c: Cpu, d: Cpu, p: Pid)
    requires Run(run) && c != d && c < |run[|run| - 1].cpus| && d < |run[|run| - 1].cpus|
    requires run[|run| - 1].cpus[c].ctl == Picked(p) && run[|run| - 1].cpus[d].ctl == Picked(p)
    requires Enabled(run[|run| - 1], Dispatch(c)) && run[|run| - 1].procs[p].state == Runnable
    ensures var s1 := Do(run[|run| - 1], Dispatch(c));
            && !Enabled(s1, Dispatch(d))
            && Enabled(s1, Resume(c))
            && var s2 := Do(s1, Resume(c));
            Enabled(s2, Dispatch(d)) && Do(s2, Dispatch(d)).cpus[d].ctl == Scanning && OneCpu(Do(s2, Dispatch(d)), p)
  {
    var s := run[|run| - 1];
    RunInv(run, |run| - 1);
    var s2 := Do(Do(s, Dispatch(c)), Resume(c));
    StepInv(s, Dispatch(c));
    StepInv(Do(s, Dispatch(c)), Resume(c));
    var s3 := Do(s2, Dispatch(d));
    StepInv(s2, Dispatch(d));
    assert ProcOk(s3, p) && Has(s3, c, p);
  }

  /** When wait finds a zombie, with the child's lock acquired, no CPU is on the child's stack or still bound to it. */
  lemma ReapedIsOffCpu(run: seq<Sys>, c: Cpu, p: Pid, d: Cpu)
    requires Run(run) && Enabled(run[|run| - 1], Reap(c, p)) && d < |run[|run| - 1].cpus|
    ensures !Has(run[|run| - 1], d, p) && Bound(run[|run| - 1].cpus[d].ctl) != Some(p)
  {
    RunInv(run, |run| - 1);
    Unbound(run[|run| - 1], p, d);
    assert CpuOk(run[|run| - 1], d);
  }

  /**
   sched's panic "sched p->lock" is unreachable, and so is "sched locks" as far as process locks go: this CPU holds the
   lock of the process it gives up, which ran here alone until then, and no other process's.
   */
  lemma SchedHoldsLock(run: seq<Sys>, c: Cpu, st: State, q: Pid)
    requires Run(run) && Enabled(run[|run| - 1], Leave(c, st)) && q < |run[|run| - 1].procs|
    ensures var s := run[|run| - 1];
            var p := s.cpus[c].ctl.p;
            && (s.procs[q].lock == Some(c) <==> q == p)
            && s.cpus[c].proc == Some(p) && s.procs[p].state == Running && Do(s, Leave(c, st)).procs[p].state != Running
  {
    RunInv(run, |run| - 1);
    assert CpuOk(run[|run| - 1], c) && ProcOk(run[|run| - 1], q);
  }
}
